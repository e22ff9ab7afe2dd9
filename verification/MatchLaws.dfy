// What a submission can rely on: conservation of size, an uncrossed book, when
// the remainder rests and why it does not, and no trade with ourselves.
module MatchLaws {
  import opened Types
  import opened BookSpec
  import opened BookViews
  import opened Flatten
  import opened MatchSpec
  import opened Matching

  lemma FlatPositive(b: Book, s: Side, f: Flat)
    requires WellFormed(b) && IsFlat(b, s, f)
    ensures PositiveFlat(f)
  {
    hide WellFormed;
    forall k: nat | k < |f| ensures f[k].e.qty > 0 {
      SelectMember(f, k);
      EntryPositive(b, s, f, f[k]);
    }
  }

  lemma EntryPositive(b: Book, s: Side, f: Flat, r: Resting)
    requires WellFormed(b) && IsFlat(b, s, f) && r.e in Select(f, r.price)
    ensures r.e.qty > 0
  {
    assert SelectsQueue(b, s, f, r.price);
    assert QueueOk(b, s, r.price);
  }

  // What the order filled is the sum of its fills, and is exactly what opposing
  // orders gave up by trading; the rest of what left that side is own orders
  // dropped to avoid trading with ourselves.
  lemma SubmissionConserves(j: Job, g: Sweep, b: Book)
    requires Crossed(j, g, b) && WellFormed(j.b0) && IsFlat(j.b0, Opposite(j.a.side), j.f) && j.qty > 0
    ensures var filled := j.qty - g.remaining;
            && 0 <= filled <= j.qty
            && filled == SumFills(FillsOf(g.hits, j.ts, j.id, Opposite(j.a.side), j.a.mine))
            && Volume(j.f) - Volume(g.rest) == filled + DroppedQty(j.f, g.hits)
            && (!(j.a.mine && j.a.rule.CancelResting?) ==> DroppedQty(j.f, g.hits) == 0)
  {
    FlatPositive(j.b0, Opposite(j.a.side), j.f);
    GreedyConserves(j.f, j.a, j.qty);
    FillsSum(g.hits, j.ts, j.id, Opposite(j.a.side), j.a.mine);
    if !(j.a.mine && j.a.rule.CancelResting?) {
      NoDrops(j.f, j.a, j.qty);
    }
  }

  lemma {:induction false} NoDrops(f: Flat, a: Incoming, qty: Qty)
    requires !(a.mine && a.rule.CancelResting?)
    ensures DroppedQty(f, Greedy(f, a, qty).hits) == 0
    decreases |f|
  {
    if qty <= 0 || Ends(f, a) {
    } else if a.mine && f[0].e.mine && a.rule.CancelIncoming? {
    } else if qty >= f[0].e.qty {
      NoDrops(f[1..], a, qty - f[0].e.qty);
      assert Greedy(f, a, qty).hits[1..] == Greedy(f[1..], a, qty - f[0].e.qty).hits;
    } else {
      assert Greedy(f, a, qty).hits[1..] == [];
    }
  }

  // After a sweep, a price crosses the book exactly when the sweep left someone
  // within its limit.
  lemma CrossingAfter(j: Job, g: Sweep, b: Book, price: Ticks)
    requires Crossed(j, g, b) && j.a.limit == Some(price)
    ensures Crossing(b, j.a.side, price) <==> g.rest != [] && Reaches(j.a, g.rest[0].price)
  {
    hide WellFormed, LadderOf, Run, Greedy;
    var s := Opposite(j.a.side);
    FlatEmpty(b, s, g.rest);
    if g.rest != [] {
      HeadIsBest(b, s, g.rest);
    }
  }

  // Stopped with someone still in reach: at an own order, or at one under id 0.
  predicate Halted(a: Incoming, g: Sweep) {
    g.blocked || (g.rest != [] && g.rest[0].e.id == 0 && Reaches(a, g.rest[0].price))
  }

  // The remainder of a limit order that was not halted rests, unless the book has no
  // room for it: it is never refused as crossing. One that was halted never rests,
  // because it would cross the order it stopped at.
  lemma RemainderRests(j: Job, g: Sweep, b: Book, price: Ticks, o: Outcome)
    requires Crossed(j, g, b) && WellFormed(j.b0) && IsFlat(j.b0, Opposite(j.a.side), j.f)
    requires j.a.limit == Some(price) && j.qty > 0 && g.remaining > 0 && j.lim.Limited?
    requires o == AddOp(b, j.lim, j.id, j.a.side, price, g.remaining, j.a.mine)
    ensures !Halted(j.a, g) ==> !o.error.CrossedBook?
    ensures Halted(j.a, g) ==> !o.error.Ok? && (g.blocked ==> j.a.rule.CancelIncoming?)
    ensures o.error.Ok? <==> !Halted(j.a, g) && InWindow(j.lim, price) && |b.index| < j.lim.capacity && j.id !in b.index
    ensures WellFormed(o.book)
  {
    hide WellFormed, IsFlat, Crossed, LadderOf, Crossing, Appended, Greedy;
    FlatPositive(j.b0, Opposite(j.a.side), j.f);
    StopReason(j, g, b);
    CrossingAfter(j, g, b, price);
    CrossedWellFormed(j, g, b);
    AddKeepsWellFormed(b, j.lim, j.id, j.a.side, price, g.remaining, j.a.mine);
  }

  // Where no order rests under id 0, only an own order halts a sweep.
  lemma OnlyOwnHalts(j: Job, g: Sweep, b: Book)
    requires Crossed(j, g, b) && 0 !in b.index
    ensures Halted(j.a, g) <==> g.blocked
  {
    hide WellFormed, LadderOf, Run, Greedy;
    if g.rest != [] {
      HeadQueue(b, Opposite(j.a.side), g.rest);
    }
  }

  lemma CrossedWellFormed(j: Job, g: Sweep, b: Book)
    requires Crossed(j, g, b)
    ensures WellFormed(b)
  {
  }

  lemma StopReason(j: Job, g: Sweep, b: Book)
    requires Crossed(j, g, b) && PositiveFlat(j.f) && j.qty > 0 && g.remaining > 0
    ensures if g.blocked then !Ends(g.rest, j.a) && j.a.rule.CancelIncoming? else Ends(g.rest, j.a)
  {
    hide WellFormed, IsFlat, LadderOf, Run;
    GreedyStops(j.f, j.a, j.qty);
  }

  // Filled plus resting is what was submitted, unless an error dropped the rest;
  // and the book is never crossed afterwards.
  lemma SubmittedIsAccounted(j: Job, g: Sweep, b: Book, price: Ticks, o: Outcome, r: SubmitResult)
    requires Crossed(j, g, b) && WellFormed(j.b0) && IsFlat(j.b0, Opposite(j.a.side), j.f)
    requires j.a.limit == Some(price) && j.qty > 0 && j.lim.Limited?
    requires o == if g.remaining <= 0 then Outcome(b, Ok)
                  else AddOp(b, j.lim, j.id, j.a.side, price, g.remaining, j.a.mine)
    requires r.filled == j.qty - g.remaining && r.error == o.error
    requires r.resting == if g.remaining > 0 && o.error.Ok? then g.remaining else 0
    ensures r.error.Ok? ==> r.filled + r.resting == j.qty
    ensures !r.error.Ok? ==> r.filled + r.resting < j.qty && r.resting == 0
    ensures WellFormed(o.book) && Uncrossed(o.book)
  {
    hide WellFormed, IsFlat, Crossed, LadderOf, Crossing, Appended, Greedy;
    SubmissionConserves(j, g, b);
    CrossedWellFormed(j, g, b);
    if g.remaining > 0 {
      AddKeepsWellFormed(b, j.lim, j.id, j.a.side, price, g.remaining, j.a.mine);
    }
    NeverCrossed(o.book);
  }

  lemma NeverCrossed(b: Book)
    requires WellFormed(b)
    ensures Uncrossed(b)
  {
  }

  // ---- the fills themselves ----

  // This fill records that trade.
  predicate Records(x: Fill, h: Hit, ts: Nanos, id: OrderId, s: Side, mine: bool) {
    && h.Traded? && x.restingId == h.id && x.price == h.price && x.qty == h.qty && x.restingMine == h.restingMine
    && x.ts == ts && x.aggressorId == id && x.restingSide == s && x.aggressorMine == mine
  }

  // One fill for each trade, in order.
  lemma {:induction false} FillsRecordTrades(hits: seq<Hit>, ts: Nanos, id: OrderId, s: Side, mine: bool)
    ensures var x, t := FillsOf(hits, ts, id, s, mine), Trades(hits);
            |x| == |t| && forall k | 0 <= k < |t| :: Records(x[k], t[k], ts, id, s, mine)
    decreases |hits|
  {
    hide FillsOfOne;
    if hits != [] {
      FillsRecordTrades(hits[1..], ts, id, s, mine);
      var x, t := FillsOf(hits[1..], ts, id, s, mine), Trades(hits[1..]);
      var first := FillsOfOne(hits[0], ts, id, s, mine);
      OneRecords(hits[0], ts, id, s, mine);
      var d := |first|;
      forall k | 0 <= k < |Trades(hits)|
        ensures Records(FillsOf(hits, ts, id, s, mine)[k], Trades(hits)[k], ts, id, s, mine)
      {
        if k >= d {
          assert Records(x[k - d], t[k - d], ts, id, s, mine);
        }
      }
    }
  }

  lemma OneRecords(h: Hit, ts: Nanos, id: OrderId, s: Side, mine: bool)
    ensures var x := FillsOfOne(h, ts, id, s, mine);
            if h.Traded? then |x| == 1 && Records(x[0], h, ts, id, s, mine) else x == []
  {
  }

  // The k-th fill took the k-th order of the list that may trade: all of it, unless
  // the fill is the last.
  predicate Took(x: Fill, r: Resting, j: Job, last: bool) {
    && x.restingId == r.e.id && x.price == r.price && x.restingMine == r.e.mine
    && (if last then 0 < x.qty <= r.e.qty else x.qty == r.e.qty)
    && x.ts == j.ts && x.aggressorId == j.id && x.restingSide == Opposite(j.a.side) && x.aggressorMine == j.a.mine
  }

  lemma FillsTakeTheList(j: Job)
    requires PositiveFlat(j.f)
    ensures var x, l := SweepFills(j), Tradable(j.f, j.a);
            |x| <= |l| && forall k | 0 <= k < |x| :: Took(x[k], l[k], j, k == |x| - 1)
  {
    var g := Greedy(j.f, j.a, j.qty);
    FillsRecordTrades(g.hits, j.ts, j.id, Opposite(j.a.side), j.a.mine);
    TradesArePrefix(j.f, j.a, j.qty);
    var x, t, l := SweepFills(j), Trades(g.hits), Tradable(j.f, j.a);
    forall k | 0 <= k < |x| ensures Took(x[k], l[k], j, k == |x| - 1) {
      assert Takes(t[k], l[k], k == |t| - 1) && Records(x[k], t[k], j.ts, j.id, Opposite(j.a.side), j.a.mine);
    }
  }

  function SweepFills(j: Job): seq<Fill> {
    FillsOf(Greedy(j.f, j.a, j.qty).hits, j.ts, j.id, Opposite(j.a.side), j.a.mine)
  }

  // On the book before the sweep, the order each fill names rested at the fill's own
  // price and side, with that owner and at least that size; the price is within the
  // limit and no better than the fill before; and both sides are ours only where the
  // venue allows it.
  lemma FillsAreReal(j: Job, k: nat)
    requires WellFormed(j.b0) && IsFlat(j.b0, Opposite(j.a.side), j.f) && k < |SweepFills(j)|
    ensures var x := SweepFills(j)[k];
            && x.restingId in j.b0.index && j.b0.index[x.restingId] == Loc(Opposite(j.a.side), x.price)
            && x.restingSide == Opposite(j.a.side) && 0 < x.qty <= QtyOfSpec(j.b0, x.restingId)
            && IsMineSpec(j.b0, x.restingId) == x.restingMine && x.aggressorMine == j.a.mine
            && (j.a.limit.Some? ==> Through(j.a.side, j.a.limit.value, x.price))
            && (j.a.mine && x.restingMine ==> j.a.rule.Allow?)
            && (k > 0 ==> !Better(Opposite(j.a.side), x.price, SweepFills(j)[k - 1].price))
  {
    hide WellFormed, IsFlat, Greedy, Tradable, Took;
    var s, x, l := Opposite(j.a.side), SweepFills(j), Tradable(j.f, j.a);
    var g := Greedy(j.f, j.a, j.qty);
    FlatPositive(j.b0, s, j.f);
    FillsTakeTheList(j);
    FillsRecordTrades(g.hits, j.ts, j.id, s, j.a.mine);
    assert Took(x[k], l[k], j, k == |x| - 1) && Records(x[k], Trades(g.hits)[k], j.ts, j.id, s, j.a.mine);
    TradableIsListed(j.f, j.a, k);
    ListedRests(j.b0, s, j.f, l[k]);
    TookIs(x[k], l[k], j, k == |x| - 1);
    TradesInReach(j.f, j.a, j.qty);
    TradeIsHit(g.hits, k);
    if k > 0 {
      assert Records(x[k - 1], Trades(g.hits)[k - 1], j.ts, j.id, s, j.a.mine);
      FlatIsOrdered(j.b0, s, j.f);
      PricesWorsen(j.f, j.a, j.qty, s, k - 1, k);
    }
  }

  lemma TookIs(x: Fill, r: Resting, j: Job, last: bool)
    requires Took(x, r, j, last) && r.e.qty > 0
    ensures x.restingId == r.e.id && x.price == r.price && x.restingMine == r.e.mine && 0 < x.qty <= r.e.qty
    ensures x.restingSide == Opposite(j.a.side) && x.aggressorMine == j.a.mine
  {
  }

  lemma FlatIsOrdered(b: Book, s: Side, f: Flat)
    requires IsFlat(b, s, f)
    ensures BestFirst(f, s)
  {
  }

  lemma {:induction false} TradableIsListed(f: Flat, a: Incoming, k: nat)
    requires k < |Tradable(f, a)|
    ensures exists i :: 0 <= i < |f| && f[i] == Tradable(f, a)[k]
    decreases |f|
  {
    var t := Tradable(f, a);
    if a.mine && f[0].e.mine && a.rule.CancelResting? {
      TradableIsListed(f[1..], a, k);
      var i :| 0 <= i < |f[1..]| && f[1..][i] == t[k];
      assert f[i + 1] == t[k];
    } else if k > 0 {
      TradableIsListed(f[1..], a, k - 1);
      var i :| 0 <= i < |f[1..]| && f[1..][i] == Tradable(f[1..], a)[k - 1];
      assert f[i + 1] == t[k];
    } else {
      assert f[0] == t[0];
    }
  }

  lemma {:induction false} TradeIsHit(hits: seq<Hit>, k: nat)
    requires k < |Trades(hits)|
    ensures Trades(hits)[k] in hits && Trades(hits)[k].Traded?
    decreases |hits|
  {
    if hits[0].Traded? {
      if k > 0 {
        TradeIsHit(hits[1..], k - 1);
      }
    } else {
      TradeIsHit(hits[1..], k);
    }
  }

  // What the list says of an order is what the book says of it.
  lemma ListedRests(b: Book, s: Side, f: Flat, r: Resting)
    requires WellFormed(b) && IsFlat(b, s, f) && r in f
    ensures r.e.id in b.index && b.index[r.e.id] == Loc(s, r.price) && r.e.qty > 0
    ensures QtyOfSpec(b, r.e.id) == r.e.qty && IsMineSpec(b, r.e.id) == r.e.mine
  {
    hide WellFormed;
    var i :| 0 <= i < |f| && f[i] == r;
    SelectMember(f, i);
    assert SelectsQueue(b, s, f, r.price);
    var k :| 0 <= k < |QueueAt(b, s, r.price)| && QueueAt(b, s, r.price)[k] == r.e;
    QueueEntryReads(b, s, r.price, k);
  }

  // Every trade is within the limit, at a worse or equal price than the trade before
  // it, and never has both sides ours unless the venue allows it.
  lemma FillsAreFair(j: Job, g: Sweep, b: Book)
    requires Crossed(j, g, b) && WellFormed(j.b0) && IsFlat(j.b0, Opposite(j.a.side), j.f)
    ensures forall h | h in g.hits && h.Traded? ::
            Reaches(j.a, h.price) && (j.a.mine && h.restingMine ==> j.a.rule.Allow?)
    ensures var t := Trades(g.hits);
            forall i, k | 0 <= i < k < |t| :: t[i].Traded? && t[k].Traded?
              && !Better(Opposite(j.a.side), t[k].price, t[i].price)
  {
    hide WellFormed, Run, LadderOf;
    FlatPositive(j.b0, Opposite(j.a.side), j.f);
    TradesInReach(j.f, j.a, j.qty);
    var t := Trades(g.hits);
    forall i: nat, k: nat | i < k < |t|
      ensures t[i].Traded? && t[k].Traded? && !Better(Opposite(j.a.side), t[k].price, t[i].price)
    {
      PricesWorsen(j.f, j.a, j.qty, Opposite(j.a.side), i, k);
    }
  }

  // ---- meeting our own orders ----

  function OwnTrades(hits: seq<Hit>): nat {
    if hits == [] then 0 else (if hits[0].Traded? && hits[0].restingMine then 1 else 0) + OwnTrades(hits[1..])
  }

  // An order from elsewhere meets none. One of ours counts, as the rule has it: every
  // own order traded with, or dropped, or the one it stopped at.
  lemma SelfMatchesAre(f: Flat, a: Incoming, qty: Qty)
    ensures var g := Greedy(f, a, qty);
            && (!a.mine ==> MetIn(g, a.mine) == 0)
            && (a.mine && a.rule.Allow? ==> MetIn(g, a.mine) == OwnTrades(g.hits))
            && (a.mine && a.rule.CancelResting? ==> MetIn(g, a.mine) == |g.hits| - |Trades(g.hits)|)
            && (a.mine && a.rule.CancelIncoming? ==> MetIn(g, a.mine) == if g.blocked then 1 else 0)
  {
    MetBy(f, a, qty);
  }

  lemma {:induction false} MetBy(f: Flat, a: Incoming, qty: Qty)
    ensures var g := Greedy(f, a, qty);
            && (g.blocked ==> a.mine && a.rule.CancelIncoming?)
            && SelfMet(g.hits, a.mine)
               == if !a.mine then 0
                  else if a.rule.Allow? then OwnTrades(g.hits)
                  else if a.rule.CancelResting? then |g.hits| - |Trades(g.hits)| else 0
    decreases |f|
  {
    if qty <= 0 || Ends(f, a) {
    } else if a.mine && f[0].e.mine && a.rule.CancelIncoming? {
    } else {
      var g := Greedy(f, a, qty);
      if (a.mine && f[0].e.mine && a.rule.CancelResting?) || qty >= f[0].e.qty {
        var left := if a.mine && f[0].e.mine && a.rule.CancelResting? then qty else qty - f[0].e.qty;
        MetBy(f[1..], a, left);
        assert g.hits[1..] == Greedy(f[1..], a, left).hits;
      } else {
        assert g.hits[1..] == [];
      }
    }
  }
}
