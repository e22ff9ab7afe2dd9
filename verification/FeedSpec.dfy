// What the exchange decoder believes about every order, and when that belief is
// in step with a book fed the events it emits.
module FeedSpec {
  import opened Types
  import opened Queues
  import opened BookSpec
  import opened BookViews

  datatype OrderState = OrderState(remaining: Qty, price: Ticks, side: Side, suppressed: bool, pending: bool)

  type LiveMap = map<OrderId, OrderState>

  // windowTicks == 0 leaves the rejecting to the book.
  datatype Config = Config(windowBase: Ticks, windowTicks: Ticks)

  datatype BookTouch = BookTouch(hasBid: bool, hasAsk: bool, bid: Ticks, ask: Ticks)

  predicate Marketable(s: Side, p: Ticks, t: BookTouch) {
    if s.Bid? then t.hasAsk && p >= t.ask else t.hasBid && p <= t.bid
  }

  predicate InBand(cfg: Config, p: Ticks) {
    cfg.windowTicks == 0 || (p >= cfg.windowBase && p < cfg.windowBase + cfg.windowTicks)
  }

  // ---- where an order stands ----

  datatype Standing = Absent | Rests(loc: Loc, qty: Qty)

  function StandingIn(b: Book, id: OrderId): Standing {
    if id in b.index then Rests(b.index[id], QtyOfSpec(b, id)) else Absent
  }

  // Orders held back, out of the band, or already down to nothing do not rest.
  function Believed(st: OrderState): Standing {
    if st.suppressed || st.pending || st.remaining == 0 then Absent
    else Rests(Loc(st.side, st.price), st.remaining)
  }

  function BelievedIn(live: LiveMap, id: OrderId): Standing {
    if id in live then Believed(live[id]) else Absent
  }

  ghost predicate InStep(live: LiveMap, b: Book, id: OrderId) {
    StandingIn(b, id) == BelievedIn(live, id) && (id in live ==> live[id].remaining >= 0)
  }

  // Every order the decoder tracks as resting rests with that price, side and
  // size, and no other order does.
  ghost predicate Lockstep(live: LiveMap, b: Book) {
    forall id :: InStep(live, b, id)
  }

  // ---- one operation on one order ----

  // Nothing but this order changed.
  ghost predicate OnlyOrder(b: Book, b': Book, id: OrderId) {
    forall i | i != id :: StandingIn(b', i) == StandingIn(b, i)
  }

  lemma QtyAfter(b: Book, s: Side, p: Ticks, q: Queue, i: OrderId)
    requires i in b.index && b.index[i] != Loc(s, p)
    ensures QtyOfSpec(WithQueue(b, s, p, q), i) == QtyOfSpec(b, i)
  {
    QueueAfter(b, s, p, q, b.index[i].side, b.index[i].price);
  }

  lemma AppendedStands(b: Book, s: Side, price: Ticks, e: Entry, i: OrderId)
    requires WellFormed(b) && e.id !in b.index
    ensures StandingIn(Appended(b, s, price, e), i)
            == if i == e.id then Rests(Loc(s, price), e.qty) else StandingIn(b, i)
  {
    hide WellFormed, WithQueue;
    var q := QueueAt(b, s, price);
    var bi := b.(index := b.index[e.id := Loc(s, price)]);
    HeldOnlyThere(b, s, price, e.id);
    IndexAppend(q, e, i);
    QueueAfter(bi, s, price, q + [e], s, price);
    assert Appended(b, s, price, e).index == bi.index by { IndexKept(bi, s, price, q + [e]); }
    if i in bi.index {
      HeldOnlyThere(b, s, price, i);
      if bi.index[i] != Loc(s, price) {
        QtyAfter(bi, s, price, q + [e], i);
        assert QueueOf(bi, i) == QueueOf(b, i);
      }
    }
  }

  lemma IndexKept(b: Book, s: Side, p: Ticks, q: Queue)
    ensures WithQueue(b, s, p, q).index == b.index
  {
  }

  lemma RemovedStands(b: Book, id: OrderId, i: OrderId)
    requires WellFormed(b) && Holds(QueueOf(b, id), id)
    ensures StandingIn(Removed(b, id), i) == if i == id then Absent else StandingIn(b, i)
  {
    hide WithQueue, Without;
    var loc, q := b.index[id], QueueOf(b, id);
    var k := IndexOf(q, id);
    var bi := b.(index := b.index - {id});
    assert QueueOk(b, loc.side, loc.price);
    IndexKept(bi, loc.side, loc.price, Without(q, k));
    if i in bi.index {
      if bi.index[i] == loc {
        QueueAfter(bi, loc.side, loc.price, Without(q, k), loc.side, loc.price);
        HoldsWithout(q, k, i);
        SizeWithout(q, k, i);
      } else {
        QtyAfter(bi, loc.side, loc.price, Without(q, k), i);
        assert QueueOf(bi, i) == QueueOf(b, i);
      }
    }
  }

  function SizeIn(q: Queue, i: OrderId): Qty {
    if Holds(q, i) then q[IndexOf(q, i)].qty else 0
  }

  lemma SizeWithout(q: Queue, k: nat, i: OrderId)
    requires DistinctIds(q) && k < |q| && i != q[k].id
    ensures SizeIn(Without(q, k), i) == SizeIn(q, i)
  {
    HoldsWithout(q, k, i);
  }

  lemma ReducedStands(b: Book, id: OrderId, cut: Qty, i: OrderId)
    requires WellFormed(b) && Holds(QueueOf(b, id), id)
    ensures StandingIn(Reduced(b, id, cut), i)
            == if i == id then Rests(b.index[id], QtyOfSpec(b, id) - cut) else StandingIn(b, i)
  {
    hide WithQueue;
    var loc, q := b.index[id], QueueOf(b, id);
    var k := IndexOf(q, id);
    IndexKept(b, loc.side, loc.price, Shrunk(q, k, cut));
    if i in b.index {
      if b.index[i] == loc {
        QueueAfter(b, loc.side, loc.price, Shrunk(q, k, cut), loc.side, loc.price);
        IndexShrunk(q, k, cut, i);
      } else {
        QtyAfter(b, loc.side, loc.price, Shrunk(q, k, cut), i);
      }
    }
  }

  // ---- a line's events, fed to the book ----

  // Every add with a size is accepted when its turn comes.
  ghost predicate AddsAccepted(b: Book, lim: Limits, es: seq<BookEvent>)
    decreases |es|
  {
    es == [] || ((es[0].kind.Add? && es[0].qty > 0 ==> Apply(b, lim, es[0]).error.Ok?)
                 && AddsAccepted(Apply(b, lim, es[0]).book, lim, es[1..]))
  }

  lemma {:induction false} AddsAcceptedSnoc(b: Book, lim: Limits, es: seq<BookEvent>, e: BookEvent)
    ensures AddsAccepted(b, lim, es + [e]) <==>
              AddsAccepted(b, lim, es) && (e.kind.Add? && e.qty > 0 ==> Apply(Run(b, lim, es), lim, e).error.Ok?)
    ensures Run(b, lim, es + [e]) == Apply(Run(b, lim, es), lim, e).book
    decreases |es|
  {
    hide Apply;
    if es == [] {
      assert [] + [e] == [e] && [e][1..] == [];
    } else {
      assert (es + [e])[1..] == es[1..] + [e];
      AddsAcceptedSnoc(Apply(b, lim, es[0]).book, lim, es[1..], e);
    }
  }

  // Where a line has got to: its events so far have only taken from one order.
  ghost predicate Midway(b0: Book, b: Book, id: OrderId, st: Standing) {
    && WellFormed(b) && OnlyOrder(b0, b, id) && StandingIn(b, id) == st
    && b.bids.Keys <= b0.bids.Keys && b.asks.Keys <= b0.asks.Keys && b.index.Keys <= b0.index.Keys
  }

  lemma ReducedKeys(b: Book, id: OrderId, cut: Qty)
    requires Holds(QueueOf(b, id), id)
    ensures Reduced(b, id, cut).bids.Keys == b.bids.Keys && Reduced(b, id, cut).asks.Keys == b.asks.Keys
    ensures Reduced(b, id, cut).index == b.index
  {
  }

  lemma RemovedKeys(b: Book, id: OrderId)
    requires Holds(QueueOf(b, id), id)
    ensures Removed(b, id).index.Keys <= b.index.Keys
  {
  }

  // Size leaves an order that rests with at least that much.
  lemma MidwayCut(b0: Book, b: Book, id: OrderId, loc: Loc, qty: Qty, cut: Qty)
    requires Midway(b0, b, id, Rests(loc, qty)) && 0 < cut <= qty
    ensures ReduceOp(b, id, cut).error.Ok?
    ensures Midway(b0, ReduceOp(b, id, cut).book, id, if cut == qty then Absent else Rests(loc, qty - cut))
  {
    hide WellFormed, Removed, Reduced, StandingIn;
    assert Holds(QueueOf(b, id), id) && QtyOfSpec(b, id) == qty && b.index[id] == loc
           by { StandsHeld(b, id, loc, qty); }
    if cut == qty {
      RemovedWellFormed(b, id);
      LaddersShrink(b, id);
      RemovedKeys(b, id);
      RemovedStands(b, id, id);
      forall i | i != id ensures StandingIn(Removed(b, id), i) == StandingIn(b0, i) {
        RemovedStands(b, id, i);
      }
    } else {
      ReducedWellFormed(b, id, cut);
      ReducedKeys(b, id, cut);
      ReducedStands(b, id, cut, id);
      forall i | i != id ensures StandingIn(Reduced(b, id, cut), i) == StandingIn(b0, i) {
        ReducedStands(b, id, cut, i);
      }
    }
  }

  lemma StandsHeld(b: Book, id: OrderId, loc: Loc, qty: Qty)
    requires WellFormed(b) && StandingIn(b, id) == Rests(loc, qty)
    ensures id in b.index && Holds(QueueOf(b, id), id) && QtyOfSpec(b, id) == qty == EntryOf(b, id).qty
            && b.index[id] == loc
  {
    HeldIsIndexed(b, id);
  }

  lemma MidwayDelete(b0: Book, b: Book, id: OrderId, st: Standing)
    requires Midway(b0, b, id, st)
    ensures Midway(b0, RemoveOp(b, id).book, id, Absent)
  {
    hide WellFormed, Removed, StandingIn;
    if Holds(QueueOf(b, id), id) {
      RemovedWellFormed(b, id);
      LaddersShrink(b, id);
      RemovedKeys(b, id);
      RemovedStands(b, id, id);
      forall i | i != id ensures StandingIn(Removed(b, id), i) == StandingIn(b0, i) {
        RemovedStands(b, id, i);
      }
    } else {
      NotHeldAbsent(b, id);
    }
  }

  lemma NotHeldAbsent(b: Book, id: OrderId)
    requires WellFormed(b) && !Holds(QueueOf(b, id), id)
    ensures StandingIn(b, id) == Absent
  {
    HeldIsIndexed(b, id);
  }

  // The pool has a slot for this order, its own if it has one.
  ghost predicate Room(b: Book, lim: Limits, id: OrderId) {
    lim.Limited? && |b.index.Keys - {id}| < lim.capacity
  }

  // The order goes back in at the back of a queue, where it did not cross the
  // book the line started from.
  lemma MidwayAdd(b0: Book, b: Book, lim: Limits, id: OrderId, s: Side, price: Ticks, qty: Qty)
    requires Midway(b0, b, id, Absent) && qty >= 0
    requires !Crossing(b0, s, price) && InWindow(lim, price) && (qty > 0 ==> Room(b0, lim, id))
    ensures var o := AddOp(b, lim, id, s, price, qty, false);
            && (qty > 0 ==> o.error.Ok?) && WellFormed(o.book) && OnlyOrder(b0, o.book, id)
            && StandingIn(o.book, id) == if qty == 0 then Absent else Rests(Loc(s, price), qty)
  {
    hide WellFormed, Appended, StandingIn, Crossing;
    if qty > 0 {
      AbsentNotIndexed(b, id);
      OthersFit(b, b0, id);
      StillNotCrossing(b0, b, s, price);
      AppendedWellFormed(b, s, price, Entry(id, qty, false));
      AppendedStands(b, s, price, Entry(id, qty, false), id);
      forall i | i != id ensures StandingIn(Appended(b, s, price, Entry(id, qty, false)), i) == StandingIn(b0, i) {
        AppendedStands(b, s, price, Entry(id, qty, false), i);
      }
    }
  }

  lemma AbsentNotIndexed(b: Book, id: OrderId)
    requires StandingIn(b, id) == Absent
    ensures id !in b.index
  {
  }

  lemma OthersFit(b: Book, b0: Book, id: OrderId)
    requires b.index.Keys <= b0.index.Keys && id !in b.index
    ensures |b.index| <= |b0.index.Keys - {id}|
  {
    SubsetCard(b.index.Keys, b0.index.Keys - {id});
    assert |b.index| == |b.index.Keys|;
  }

  lemma {:induction false} SubsetCard(x: set<OrderId>, y: set<OrderId>)
    requires x <= y
    ensures |x| <= |y|
    decreases |x|
  {
    if k :| k in x {
      SubsetCard(x - {k}, y - {k});
    }
  }

  lemma StillNotCrossing(b0: Book, b: Book, s: Side, price: Ticks)
    requires b.bids.Keys <= b0.bids.Keys && b.asks.Keys <= b0.asks.Keys && !Crossing(b0, s, price)
    ensures !Crossing(b, s, price)
  {
    forall p | p in LadderOf(b, Opposite(s)) ensures !Through(s, price, p) {
      assert p in LadderOf(b0, Opposite(s));
    }
  }

  // ---- a line's events so far, and at its end ----

  ghost predicate Track(b0: Book, lim: Limits, es: seq<BookEvent>, id: OrderId, st: Standing) {
    AddsAccepted(b0, lim, es) && Midway(b0, Run(b0, lim, es), id, st)
  }

  ghost predicate Landed(b0: Book, lim: Limits, es: seq<BookEvent>, id: OrderId, st: Standing) {
    var b := Run(b0, lim, es);
    AddsAccepted(b0, lim, es) && WellFormed(b) && OnlyOrder(b0, b, id) && StandingIn(b, id) == st
  }

  lemma TrackStart(b0: Book, lim: Limits, id: OrderId, st: Standing)
    requires WellFormed(b0) && StandingIn(b0, id) == st
    ensures Track(b0, lim, [], id, st)
  {
    hide WellFormed, StandingIn;
  }

  lemma TrackLands(b0: Book, lim: Limits, es: seq<BookEvent>, id: OrderId, st: Standing)
    requires Track(b0, lim, es, id, st)
    ensures Landed(b0, lim, es, id, st)
  {
    hide WellFormed, StandingIn, Run, AddsAccepted;
  }

  lemma TrackCut(b0: Book, lim: Limits, es: seq<BookEvent>, id: OrderId, loc: Loc, qty: Qty, e: BookEvent)
    requires Track(b0, lim, es, id, Rests(loc, qty))
    requires e.orderId == id && (e.kind.Execute? || e.kind.Reduce?) && 0 < e.qty <= qty
    ensures Track(b0, lim, es + [e], id, if e.qty == qty then Absent else Rests(loc, qty - e.qty))
  {
    hide WellFormed, Midway, Run, AddsAccepted, ReduceOp;
    MidwayCut(b0, Run(b0, lim, es), id, loc, qty, e.qty);
    AddsAcceptedSnoc(b0, lim, es, e);
  }

  lemma TrackDelete(b0: Book, lim: Limits, es: seq<BookEvent>, id: OrderId, st: Standing, e: BookEvent)
    requires Track(b0, lim, es, id, st) && e.orderId == id && e.kind.Delete?
    ensures Track(b0, lim, es + [e], id, Absent)
  {
    hide WellFormed, Midway, Run, AddsAccepted, RemoveOp;
    MidwayDelete(b0, Run(b0, lim, es), id, st);
    AddsAcceptedSnoc(b0, lim, es, e);
  }

  lemma TrackAdd(b0: Book, lim: Limits, es: seq<BookEvent>, id: OrderId, e: BookEvent)
    requires Track(b0, lim, es, id, Absent) && e.orderId == id && e.kind.Add? && e.qty >= 0
    requires !Crossing(b0, e.side, e.price) && InWindow(lim, e.price) && (e.qty > 0 ==> Room(b0, lim, id))
    ensures Landed(b0, lim, es + [e], id, if e.qty == 0 then Absent else Rests(Loc(e.side, e.price), e.qty))
  {
    hide WellFormed, Midway, Run, AddsAccepted, AddOp, StandingIn, Crossing, OnlyOrder;
    MidwayAdd(b0, Run(b0, lim, es), lim, id, e.side, e.price, e.qty);
    AddsAcceptedSnoc(b0, lim, es, e);
  }

  // After the line the decoder and the book still agree: no event was refused, and
  // the order concerned stands as recorded.
  ghost predicate Follows(b0: Book, lim: Limits, es: seq<BookEvent>, live: LiveMap) {
    AddsAccepted(b0, lim, es) && WellFormed(Run(b0, lim, es)) && Lockstep(live, Run(b0, lim, es))
  }

  ghost predicate DiffersAt(live: LiveMap, live': LiveMap, id: OrderId) {
    forall i | i != id :: BelievedIn(live', i) == BelievedIn(live, i)
      && (i in live' ==> i in live && live'[i] == live[i])
  }

  lemma LandedFollows(b0: Book, lim: Limits, es: seq<BookEvent>, id: OrderId, live: LiveMap, live': LiveMap)
    requires Landed(b0, lim, es, id, BelievedIn(live', id)) && DiffersAt(live, live', id)
    requires Lockstep(live, b0) && (id in live' ==> live'[id].remaining >= 0)
    ensures Follows(b0, lim, es, live')
  {
    hide WellFormed, Run, AddsAccepted, StandingIn, BelievedIn;
    var b := Run(b0, lim, es);
    forall i ensures InStep(live', b, i) {
      assert InStep(live, b0, i);
    }
  }

  // ---- messages ----

  datatype MsgKind = Created | Changed | Deleted

  datatype Msg = Msg(kind: MsgKind, id: OrderId, side: Side, price: Ticks, amount: Qty, traded: Option<Qty>)

  // The touch the decoder is given is the book's.
  ghost predicate TouchIs(t: BookTouch, b: Book) {
    && (t.hasBid <==> exists p :: p in b.bids) && (t.hasBid ==> IsBest(b.bids, Bid, t.bid))
    && (t.hasAsk <==> exists p :: p in b.asks) && (t.hasAsk ==> IsBest(b.asks, Ask, t.ask))
  }

  lemma MarketableCrosses(t: BookTouch, b: Book, s: Side, p: Ticks)
    requires TouchIs(t, b)
    ensures Marketable(s, p, t) <==> Crossing(b, s, p)
  {
    if Marketable(s, p, t) {
      var touch := if s.Bid? then t.ask else t.bid;
      assert touch in LadderOf(b, Opposite(s)) && Through(s, p, touch);
    }
  }

  // Decoder and book agree, about their orders, the touch and the window.
  ghost predicate Aligned(cfg: Config, live: LiveMap, t: BookTouch, b: Book, lim: Limits) {
    && WellFormed(b) && Lockstep(live, b) && TouchIs(t, b)
    && lim.Limited? && lim.base == cfg.windowBase && lim.window == cfg.windowTicks > 0
  }

  // Fresh create ids, non-negative sizes, stable sides.
  predicate WellFed(live: LiveMap, m: Msg) {
    && m.amount >= 0
    && (m.kind.Created? ==> m.id !in live)
    && (m.id in live ==> m.side == live[m.id].side)
  }

  predicate Tracked(live: LiveMap, id: OrderId) {
    id in live && !live[id].pending && !live[id].suppressed
  }

  // Orders that may rest are inside the band, whatever the feed sends.
  ghost predicate Banded(cfg: Config, live: LiveMap) {
    forall id | Tracked(live, id) :: InBand(cfg, live[id].price)
  }

  // An order already at nothing grows again, in place, at a price the book has
  // since traded through.
  predicate Regrows(live: LiveMap, m: Msg, t: BookTouch) {
    && m.kind.Changed? && Tracked(live, m.id) && live[m.id].remaining == 0 < m.amount
    && m.price == live[m.id].price && Marketable(m.side, m.price, t)
  }

  // A resting order at its own price crosses nothing.
  lemma OwnPriceIsSafe(b: Book, id: OrderId, loc: Loc, qty: Qty)
    requires WellFormed(b) && StandingIn(b, id) == Rests(loc, qty)
    ensures !Crossing(b, loc.side, loc.price)
  {
    hide QueueOk, QueueOf;
    HeldIsIndexed(b, id);
    HeldInLadder(b, id);
    forall p | p in LadderOf(b, Opposite(loc.side)) ensures !Through(loc.side, loc.price, p) {
      assert BidBelowAsk(b, if loc.side.Bid? then loc.price else p, if loc.side.Bid? then p else loc.price);
    }
  }

  lemma NotHeldWhenAbsent(b: Book, id: OrderId)
    requires StandingIn(b, id) == Absent
    ensures !Holds(QueueOf(b, id), id)
  {
  }

  // The case that breaks step: the order is absent, its delete is refused, its add
  // crosses and is refused, and the decoder believes it rests.
  lemma RegrowthFails(b: Book, lim: Limits, live: LiveMap, e0: BookEvent, e1: BookEvent)
    requires WellFormed(b)
    requires e0.kind.Delete? && e1.kind.Add? && e0.orderId == e1.orderId && e1.qty > 0
    requires StandingIn(b, e0.orderId) == Absent && Crossing(b, e1.side, e1.price)
    requires BelievedIn(live, e1.orderId).Rests?
    ensures !AddsAccepted(b, lim, [e0, e1])
    ensures Run(b, lim, [e0, e1]) == b && !Lockstep(live, Run(b, lim, [e0, e1]))
  {
    hide WellFormed, Crossing;
    NotHeldWhenAbsent(b, e0.orderId);
    assert Apply(b, lim, e0).book == b;
    assert [e0, e1][1..] == [e1] && [e1][1..] == [];
    assert Apply(b, lim, e1).book == b && !Apply(b, lim, e1).error.Ok?;
    assert !AddsAccepted(b, lim, [e1]);
    assert Run(b, lim, [e0, e1]) == Run(b, lim, [e1]);
    assert Run(b, lim, [e1]) == Run(b, lim, []);
    assert !InStep(live, b, e1.orderId);
  }
}
