// The matching engine over the fast book. Its loops are proved to consume the
// opposite side greedily in price-time order; the rest of a limit order is
// offered to the book.
module Matching {
  import opened Types
  import opened BookSpec
  import opened BookViews
  import opened Flatten
  import opened MatchSpec
  import OrderMaps
  import opened OrderBooks

  datatype Fill = Fill(
    ts: Nanos,
    restingId: OrderId,
    aggressorId: OrderId,
    price: Ticks,
    qty: Qty,
    restingSide: Side,
    restingMine: bool,
    aggressorMine: bool)

  datatype SubmitResult = SubmitResult(filled: Qty, resting: Qty, firstFill: nat, nFills: nat, error: BookError)

  // The fills a sweep's trades produce, at the resting orders' prices.
  function FillsOf(hits: seq<Hit>, ts: Nanos, aggressor: OrderId, restingSide: Side, mine: bool): seq<Fill> {
    if hits == [] then []
    else FillsOfOne(hits[0], ts, aggressor, restingSide, mine) + FillsOf(hits[1..], ts, aggressor, restingSide, mine)
  }

  function FillsOfOne(h: Hit, ts: Nanos, aggressor: OrderId, restingSide: Side, mine: bool): seq<Fill> {
    if h.Traded? then [Fill(ts, h.id, aggressor, h.price, h.qty, restingSide, h.restingMine, mine)] else []
  }

  lemma {:induction false} FillsOfSnoc(hits: seq<Hit>, h: Hit, ts: Nanos, aggressor: OrderId, s: Side, mine: bool)
    ensures FillsOf(hits + [h], ts, aggressor, s, mine)
            == FillsOf(hits, ts, aggressor, s, mine) + FillsOfOne(h, ts, aggressor, s, mine)
  {
    hide FillsOfOne;
    if hits == [] {
      assert [] + [h] == [h] && [h][1..] == [];
    } else {
      FillsOfSnoc(hits[1..], h, ts, aggressor, s, mine);
      assert (hits + [h])[1..] == hits[1..] + [h] && (hits + [h])[0] == hits[0];
      var first, last := FillsOfOne(hits[0], ts, aggressor, s, mine), FillsOfOne(h, ts, aggressor, s, mine);
      assert (first + FillsOf(hits[1..], ts, aggressor, s, mine)) + last
          == first + (FillsOf(hits[1..], ts, aggressor, s, mine) + last);
    }
  }

  // Own orders an own incoming order met: dropped, or traded with where allowed.
  function SelfMet(hits: seq<Hit>, mine: bool): nat {
    if hits == [] then 0 else SelfMetOne(hits[0], mine) + SelfMet(hits[1..], mine)
  }

  function SelfMetOne(h: Hit, mine: bool): nat {
    if h.Dropped? || (mine && h.restingMine) then 1 else 0
  }

  lemma {:induction false} SelfMetSnoc(hits: seq<Hit>, h: Hit, mine: bool)
    ensures SelfMet(hits + [h], mine) == SelfMet(hits, mine) + SelfMetOne(h, mine)
  {
    if hits == [] {
      assert [] + [h] == [h];
    } else {
      SelfMetSnoc(hits[1..], h, mine);
      assert (hits + [h])[1..] == hits[1..] + [h];
    }
  }

  function SumFills(fills: seq<Fill>): Qty {
    if fills == [] then 0 else fills[0].qty + SumFills(fills[1..])
  }

  // What the fills add up to is what the sweep traded.
  lemma {:induction false} FillsSum(hits: seq<Hit>, ts: Nanos, aggressor: OrderId, s: Side, mine: bool)
    ensures SumFills(FillsOf(hits, ts, aggressor, s, mine)) == TradedQty(hits)
  {
    if hits != [] {
      FillsSum(hits[1..], ts, aggressor, s, mine);
      var rest := FillsOf(hits[1..], ts, aggressor, s, mine);
      if hits[0].Traded? {
        assert FillsOf(hits, ts, aggressor, s, mine)[1..] == rest;
      } else {
        assert FillsOf(hits, ts, aggressor, s, mine) == rest;
      }
    }
  }

  // ---- the state of a sweep in progress ----

  function Resumed(hits: seq<Hit>, g: Sweep): Sweep {
    g.(hits := hits + g.hits)
  }

  // `hits` have happened to book b0; `cur` and `remaining` are what is left, and
  // finishing from here gives the whole greedy sweep.
  ghost predicate Sweeping(b0: Book, lim: Limits, f: Flat, a: Incoming, qty: Qty,
                           b: Book, hits: seq<Hit>, cur: Flat, remaining: Qty)
  {
    && Greedy(f, a, qty) == Resumed(hits, Greedy(cur, a, remaining))
    && b == Run(b0, lim, EventsOf(hits, Opposite(a.side)))
    && WellFormed(b) && IsFlat(b, Opposite(a.side), cur) && LadderOf(b, a.side) == LadderOf(b0, a.side)
    && remaining >= 0
  }

  lemma RunHit(b0: Book, lim: Limits, s: Side, hits: seq<Hit>, h: Hit)
    ensures Run(b0, lim, EventsOf(hits + [h], s)) == Apply(Run(b0, lim, EventsOf(hits, s)), lim, EventOf(h, s)).book
  {
    hide Apply;
    assert EventsOf(hits + [h], s) == EventsOf(hits, s) + [EventOf(h, s)];
    RunConcat(b0, lim, EventsOf(hits, s), [EventOf(h, s)]);
    assert Run(Run(b0, lim, EventsOf(hits, s)), lim, [EventOf(h, s)])
        == Run(Apply(Run(b0, lim, EventsOf(hits, s)), lim, EventOf(h, s)).book, lim, [EventOf(h, s)][1..]);
  }

  lemma ResumedHit(hits: seq<Hit>, h: Hit, g: Sweep)
    ensures Resumed(hits, After(h, g)) == Resumed(hits + [h], g)
  {
    assert hits + ([h] + g.hits) == hits + [h] + g.hits;
  }

  // The head of the list goes: dropped as our own, or traded whole.
  lemma SweepHead(b0: Book, lim: Limits, f: Flat, a: Incoming, qty: Qty,
                  b: Book, hits: seq<Hit>, cur: Flat, remaining: Qty, h: Hit)
    requires Sweeping(b0, lim, f, a, qty, b, hits, cur, remaining)
    requires remaining > 0 && !Ends(cur, a)
    requires if a.mine && cur[0].e.mine && a.rule.CancelResting? then h == Dropped(cur[0].e.id)
             else !(a.mine && cur[0].e.mine && a.rule.CancelIncoming?) && remaining >= cur[0].e.qty
                  && h == Traded(cur[0].e.id, cur[0].price, cur[0].e.qty, cur[0].e.mine)
    ensures var b' := Apply(b, lim, EventOf(h, Opposite(a.side))).book;
            Sweeping(b0, lim, f, a, qty, b', hits + [h], cur[1..], if h.Traded? then remaining - h.qty else remaining)
  {
    hide Apply, WellFormed, IsFlat, LadderOf, EventsOf, Run;
    HeadLeaves(b, lim, Opposite(a.side), cur, h);
    RunHit(b0, lim, Opposite(a.side), hits, h);
    ResumedHit(hits, h, Greedy(cur[1..], a, if h.Traded? then remaining - h.qty else remaining));
  }

  // The head outlasts the incoming order.
  lemma SweepLast(b0: Book, lim: Limits, f: Flat, a: Incoming, qty: Qty,
                  b: Book, hits: seq<Hit>, cur: Flat, remaining: Qty)
    requires Sweeping(b0, lim, f, a, qty, b, hits, cur, remaining)
    requires !Ends(cur, a) && 0 < remaining < cur[0].e.qty
    requires !(a.mine && cur[0].e.mine && !a.rule.Allow?)
    ensures var h := Traded(cur[0].e.id, cur[0].price, remaining, cur[0].e.mine);
            var b' := Apply(b, lim, EventOf(h, Opposite(a.side))).book;
            Sweeping(b0, lim, f, a, qty, b', hits + [h], [Smaller(cur[0], remaining)] + cur[1..], 0)
  {
    hide Apply, WellFormed, IsFlat, LadderOf, EventsOf, Run;
    var h := Traded(cur[0].e.id, cur[0].price, remaining, cur[0].e.mine);
    HeadShrinks(b, lim, Opposite(a.side), cur, remaining);
    RunHit(b0, lim, Opposite(a.side), hits, h);
    var cur' := [Smaller(cur[0], remaining)] + cur[1..];
    assert Greedy(cur, a, remaining) == After(h, Greedy(cur', a, 0));
    ResumedHit(hits, h, Greedy(cur', a, 0));
  }

  lemma SweepStops(b0: Book, lim: Limits, f: Flat, a: Incoming, qty: Qty,
                   b: Book, hits: seq<Hit>, cur: Flat, remaining: Qty)
    requires Sweeping(b0, lim, f, a, qty, b, hits, cur, remaining)
    requires remaining == 0 || Ends(cur, a) || (a.mine && cur[0].e.mine && a.rule.CancelIncoming?)
    ensures var g := Greedy(f, a, qty);
            g.hits == hits && g.rest == cur && g.remaining == remaining
            && (g.blocked <==> remaining > 0 && !Ends(cur, a))
  {
    hide WellFormed, IsFlat, LadderOf, EventsOf, Run;
    assert hits + [] == hits;
  }

  lemma SweepReads(b0: Book, lim: Limits, f: Flat, a: Incoming, qty: Qty,
                   b: Book, hits: seq<Hit>, cur: Flat, remaining: Qty)
    requires Sweeping(b0, lim, f, a, qty, b, hits, cur, remaining)
    ensures var s := Opposite(a.side);
            && (cur == [] <==> forall p :: p !in LadderOf(b, s))
            && (cur != [] ==>
                  && IsBest(LadderOf(b, s), s, cur[0].price)
                  && FrontSpec(b, s, cur[0].price) == cur[0].e.id
                  && QtyOfSpec(b, cur[0].e.id) == cur[0].e.qty > 0
                  && IsMineSpec(b, cur[0].e.id) == cur[0].e.mine)
  {
    hide WellFormed, IsFlat, LadderOf, EventsOf, Run, QtyOfSpec, IsMineSpec, FrontSpec;
    FlatEmpty(b, Opposite(a.side), cur);
    if cur != [] {
      FlatHead(b, Opposite(a.side), cur);
    }
  }

  // What a sweep starts from.
  datatype Job = Job(b0: Book, lim: Limits, f: Flat, a: Incoming, qty: Qty, ts: Nanos, id: OrderId)

  // A sweep in progress, with the fills it has produced and the own orders it met.
  ghost predicate Swept(j: Job, b: Book, hits: seq<Hit>, cur: Flat, remaining: Qty, fills: seq<Fill>, met: nat) {
    && Sweeping(j.b0, j.lim, j.f, j.a, j.qty, b, hits, cur, remaining)
    && fills == FillsOf(hits, j.ts, j.id, Opposite(j.a.side), j.a.mine)
    && met == SelfMet(hits, j.a.mine)
  }

  function HeadTrade(cur: Flat, take: Qty): Hit
    requires cur != []
  {
    Traded(cur[0].e.id, cur[0].price, take, cur[0].e.mine)
  }

  function AfterTrade(cur: Flat, take: Qty): Flat
    requires cur != []
  {
    if take == cur[0].e.qty then cur[1..] else [Smaller(cur[0], take)] + cur[1..]
  }

  function FillFor(j: Job, h: Hit): Fill
    requires h.Traded?
  {
    Fill(j.ts, h.id, j.id, h.price, h.qty, Opposite(j.a.side), h.restingMine, j.a.mine)
  }

  // The head trades as much as it can: the book accepts it, and the sweep goes on.
  lemma SweptTrade(j: Job, b: Book, hits: seq<Hit>, cur: Flat, remaining: Qty, fills: seq<Fill>, met: nat)
    requires Swept(j, b, hits, cur, remaining, fills, met)
    requires remaining > 0 && !Ends(cur, j.a)
    requires !(j.a.mine && cur[0].e.mine && !j.a.rule.Allow?)
    ensures var take := Min(remaining, cur[0].e.qty);
            var o, h := ReduceOp(b, cur[0].e.id, take), HeadTrade(cur, take);
            && take > 0 && o.error.Ok? && IsMineSpec(b, cur[0].e.id) == cur[0].e.mine
            && Swept(j, o.book, hits + [h], AfterTrade(cur, take), remaining - take, fills + [FillFor(j, h)],
                     met + (if j.a.mine && cur[0].e.mine then 1 else 0))
  {
    hide WellFormed, IsFlat, LadderOf, EventsOf, Run, FillsOf, SelfMet, Smaller, Resumed, Greedy;
    FlatHead(b, Opposite(j.a.side), cur);
    var h := HeadTrade(cur, Min(remaining, cur[0].e.qty));
    FillsOfSnoc(hits, h, j.ts, j.id, Opposite(j.a.side), j.a.mine);
    SelfMetSnoc(hits, h, j.a.mine);
    if remaining < cur[0].e.qty {
      SweepLast(j.b0, j.lim, j.f, j.a, j.qty, b, hits, cur, remaining);
    } else {
      SweepHead(j.b0, j.lim, j.f, j.a, j.qty, b, hits, cur, remaining, h);
    }
  }

  // Our own head is dropped and the sweep goes on.
  lemma SweptDrop(j: Job, b: Book, hits: seq<Hit>, cur: Flat, remaining: Qty, fills: seq<Fill>, met: nat)
    requires Swept(j, b, hits, cur, remaining, fills, met)
    requires remaining > 0 && !Ends(cur, j.a)
    requires j.a.mine && cur[0].e.mine && j.a.rule.CancelResting?
    ensures var h := Dropped(cur[0].e.id);
            Swept(j, RemoveOp(b, cur[0].e.id).book, hits + [h], cur[1..], remaining, fills, met + 1)
  {
    hide WellFormed, IsFlat, LadderOf, EventsOf, Run, FillsOf, SelfMet, Smaller, Resumed, Greedy;
    var h := Dropped(cur[0].e.id);
    FillsOfSnoc(hits, h, j.ts, j.id, Opposite(j.a.side), j.a.mine);
    SelfMetSnoc(hits, h, j.a.mine);
    SweepHead(j.b0, j.lim, j.f, j.a, j.qty, b, hits, cur, remaining, h);
  }

  // No entry of the list is at a better price than this.
  ghost predicate NoBetter(cur: Flat, s: Side, lvl: Ticks) {
    cur != [] ==> !Better(s, cur[0].price, lvl)
  }

  // Stopped with size left, at an own order in reach.
  predicate AtOwn(a: Incoming, cur: Flat, remaining: Qty) {
    remaining > 0 && !Ends(cur, a) && a.mine && cur[0].e.mine && a.rule.CancelIncoming?
  }

  // What the book answers about the level being drained: the head of the list
  // while it is at this price and not under id 0, and nothing otherwise.
  lemma LevelReads(j: Job, b: Book, hits: seq<Hit>, cur: Flat, remaining: Qty, fills: seq<Fill>, met: nat, lvl: Ticks)
    requires Swept(j, b, hits, cur, remaining, fills, met) && NoBetter(cur, Opposite(j.a.side), lvl)
    ensures var front := FrontSpec(b, Opposite(j.a.side), lvl);
            if front == 0 then cur == [] || cur[0].price != lvl || cur[0].e.id == 0
            else cur != [] && cur[0].price == lvl && front == cur[0].e.id
                 && QtyOfSpec(b, front) == cur[0].e.qty > 0 && IsMineSpec(b, front) == cur[0].e.mine
    ensures cur != [] ==> NoBetter(cur[1..], Opposite(j.a.side), cur[0].price)
  {
    hide WellFormed, LadderOf, EventsOf, Run, QtyOfSpec, IsMineSpec, FillsOf, SelfMet;
    var s := Opposite(j.a.side);
    SweepReads(j.b0, j.lim, j.f, j.a, j.qty, b, hits, cur, remaining);
    if cur == [] || cur[0].price != lvl {
      NotListed(b, s, cur, lvl);
    }
  }

  lemma NotListed(b: Book, s: Side, cur: Flat, lvl: Ticks)
    requires WellFormed(b) && IsFlat(b, s, cur) && NoBetter(cur, s, lvl) && (cur == [] || cur[0].price != lvl)
    ensures QueueAt(b, s, lvl) == []
  {
    hide WellFormed;
    FlatPrices(b, s, cur, lvl);
    forall k | 0 <= k < |cur| ensures cur[k].price != lvl {
      assert k == 0 || !Better(s, cur[k].price, cur[0].price);
    }
  }

  // The book after a sweep: the greedy sweep's trades and drops applied one by
  // one, its leftover list on the swept side, the other side untouched.
  ghost predicate Crossed(j: Job, g: Sweep, b: Book) {
    && g == Greedy(j.f, j.a, j.qty)
    && b == Run(j.b0, j.lim, EventsOf(g.hits, Opposite(j.a.side)))
    && IsFlat(b, Opposite(j.a.side), g.rest) && WellFormed(b)
    && LadderOf(b, j.a.side) == LadderOf(j.b0, j.a.side)
  }

  function MetIn(g: Sweep, mine: bool): nat {
    SelfMet(g.hits, mine) + (if g.blocked then 1 else 0)
  }

  lemma ReachesLimit(a: Incoming, p: Ticks)
    ensures Reaches(a, p) <==> a.limit.Some? ==> Through(a.side, a.limit.value, p)
  {
  }

  // What the book's touch says about the list.
  lemma TouchReads(j: Job, b: Book, hits: seq<Hit>, cur: Flat, remaining: Qty, fills: seq<Fill>, met: nat)
    requires Swept(j, b, hits, cur, remaining, fills, met)
    ensures cur == [] <==> !exists p :: p in LadderOf(b, Opposite(j.a.side))
    ensures cur != [] ==> IsBest(LadderOf(b, Opposite(j.a.side)), Opposite(j.a.side), cur[0].price)
  {
    hide WellFormed, IsFlat, LadderOf, EventsOf, Run, FillsOf, SelfMet;
    SweepReads(j.b0, j.lim, j.f, j.a, j.qty, b, hits, cur, remaining);
  }

  lemma SweptStart(j: Job)
    requires WellFormed(j.b0) && IsFlat(j.b0, Opposite(j.a.side), j.f) && j.qty >= 0
    ensures Swept(j, j.b0, [], j.f, j.qty, [], 0)
  {
    hide WellFormed, IsFlat, LadderOf, Greedy;
    var g := Greedy(j.f, j.a, j.qty);
    assert [] + g.hits == g.hits;
  }

  lemma SweptEnd(j: Job, b: Book, hits: seq<Hit>, cur: Flat, remaining: Qty, fills: seq<Fill>, met: nat, stopped: bool)
    requires Swept(j, b, hits, cur, remaining, fills, met)
    requires if stopped then AtOwn(j.a, cur, remaining) else remaining == 0 || Ends(cur, j.a)
    ensures var g := Greedy(j.f, j.a, j.qty);
            && Crossed(j, g, b) && g.remaining == remaining
            && fills == FillsOf(g.hits, j.ts, j.id, Opposite(j.a.side), j.a.mine)
            && met + (if stopped then 1 else 0) == MetIn(g, j.a.mine)
  {
    hide WellFormed, IsFlat, LadderOf, EventsOf, Run, FillsOf, SelfMet;
    SweepStops(j.b0, j.lim, j.f, j.a, j.qty, b, hits, cur, remaining);
  }

  class MatchingEngine {
    const book: OrderBook
    const rule: SelfMatch
    // The fill log's window: fills[0] is fill number `base` of all ever made.
    var fills: seq<Fill>
    var base: nat
    var selfMatches: nat
    ghost var log: seq<Fill>

    ghost const Owned: set<object> := {this} + book.Owned

    ghost predicate Valid()
      reads Owned
      ensures Valid() ==> book.Valid() && book.ids.Valid()
    {
      this !in book.Owned && book.Valid() && WindowOk()
    }

    ghost predicate WindowOk()
      reads this
    {
      base + |fills| == |log| && fills == log[base..]
    }

    constructor (book: OrderBook, rule: SelfMatch)
      requires book.Valid()
      ensures Valid() && this.book == book && this.rule == rule && log == [] && base == 0
    {
      this.book := book;
      this.rule := rule;
      fills, base, selfMatches, log := [], 0, 0, [];
    }

    // One step against the first order of a level: drop it, stop at it, or trade.
    method HitFront(front: OrderId, lvl: Ticks, ts: Nanos, id: OrderId, a: Incoming, left: Qty, fills0: seq<Fill>,
                    met0: nat, ghost j: Job, ghost hits0: seq<Hit>, ghost cur0: Flat)
      returns (remaining: Qty, fills: seq<Fill>, met: nat, stopped: bool, ghost hits: seq<Hit>, ghost cur: Flat)
      requires book.Valid() && Swept(j, book.Book(), hits0, cur0, left, fills0, met0)
      requires left > 0 && ts == j.ts && id == j.id && a == j.a && a.rule == rule
      requires !Ends(cur0, a) && cur0[0].price == lvl && front == cur0[0].e.id
      requires QtyOfSpec(book.Book(), front) == cur0[0].e.qty && IsMineSpec(book.Book(), front) == cur0[0].e.mine
      modifies book.Owned
      ensures book.Valid() && Swept(j, book.Book(), hits, cur, remaining, fills, met) && remaining >= 0
      ensures stopped ==> AtOwn(a, cur, remaining)
      ensures !stopped ==> |cur| < |cur0| || (|cur| == |cur0| && remaining < left)
      ensures !stopped ==> cur == cur0[1..] || (cur != [] && cur[0].price == lvl)
    {
      hide Swept, OrderBook.Valid, OrderBook.Book, OrderBook.Limits, IsMineSpec, QtyOfSpec, ReduceOp, RemoveOp;
      remaining, fills, met, stopped, hits, cur := left, fills0, met0, false, hits0, cur0;
      var avail := book.QtyOf(front);
      var isMine := book.IsMine(front);
      if a.mine && isMine && rule.CancelResting? {
        SweptDrop(j, book.Book(), hits, cur, remaining, fills, met);
        var r := book.Remove(front);
        hits, cur, met := hits + [Dropped(front)], cur[1..], met + 1;
      } else if a.mine && isMine && rule.CancelIncoming? {
        stopped := true;
      } else {
        SweptTrade(j, book.Book(), hits, cur, remaining, fills, met);
        var take := Min(remaining, avail);
        var r := book.Execute(front, take);
        assert r.Ok?;
        fills := fills + [Fill(ts, front, id, lvl, take, Opposite(a.side), isMine, a.mine)];
        met := met + (if a.mine && isMine then 1 else 0);
        hits, cur := hits + [HeadTrade(cur, take)], AfterTrade(cur, take);
        remaining := remaining - take;
      }
    }

    // Drains one level, front first. `stopped`: an own order under CancelIncoming.
    // Without progress the level's front was under id 0, which reads as empty.
    method DrainLevel(lvl: Ticks, ts: Nanos, id: OrderId, a: Incoming, before: Qty, fills0: seq<Fill>, met0: nat,
                      ghost j: Job, ghost hits0: seq<Hit>, ghost cur0: Flat)
      returns (remaining: Qty, fills: seq<Fill>, met: nat, stopped: bool, progressed: bool, ghost hits: seq<Hit>,
               ghost cur: Flat)
      requires book.Valid() && Swept(j, book.Book(), hits0, cur0, before, fills0, met0)
      requires before > 0 && ts == j.ts && id == j.id && a == j.a && a.rule == rule
      requires cur0 != [] && cur0[0].price == lvl && Reaches(a, lvl)
      modifies book.Owned
      ensures book.Valid() && Swept(j, book.Book(), hits, cur, remaining, fills, met) && remaining >= 0
      ensures stopped ==> AtOwn(a, cur, remaining)
      ensures !stopped && progressed ==> |cur| < |cur0| || (|cur| == |cur0| && remaining < before)
      ensures !stopped && !progressed ==> Ends(cur, a)
    {
      hide Swept, OrderBook.Valid, OrderBook.Book, OrderBook.Limits, IsMineSpec, QtyOfSpec, FrontSpec, Reaches;
      remaining, fills, met, stopped, progressed, hits, cur := before, fills0, met0, false, false, hits0, cur0;
      while remaining > 0 && !stopped
        invariant book.Valid() && Swept(j, book.Book(), hits, cur, remaining, fills, met) && remaining >= 0
        invariant stopped ==> AtOwn(a, cur, remaining)
        invariant !stopped ==> NoBetter(cur, Opposite(a.side), lvl)
        invariant !stopped && progressed ==> |cur| < |cur0| || (|cur| == |cur0| && remaining < before)
        invariant !stopped && !progressed ==> cur == cur0 && remaining == before
        decreases !stopped, |cur|, remaining
      {
        LevelReads(j, book.Book(), hits, cur, remaining, fills, met, lvl);
        var front := book.FrontOrderAt(Opposite(a.side), lvl);
        if front == 0 {
          break;
        }
        remaining, fills, met, stopped, hits, cur :=
          HitFront(front, lvl, ts, id, a, remaining, fills, met, j, hits, cur);
        progressed := progressed || !stopped;
      }
    }

    // The greedy sweep of the opposite side: its book, its fills, its remainder.
    method Cross(ts: Nanos, id: OrderId, a: Incoming, qty: Qty, ghost f: Flat) returns (remaining: Qty, ghost g: Sweep)
      requires Valid() && a.rule == rule && qty >= 0 && IsFlat(book.Book(), Opposite(a.side), f)
      modifies Owned
      ensures Valid() && base == old(base)
      ensures Crossed(Job(old(book.Book()), book.Limits(), f, a, qty, ts, id), g, book.Book())
              && remaining == g.remaining
      ensures fills == old(fills) + FillsOf(g.hits, ts, id, Opposite(a.side), a.mine)
      ensures log == old(log) + FillsOf(g.hits, ts, id, Opposite(a.side), a.mine)
      ensures selfMatches == old(selfMatches) + MetIn(g, a.mine)
    {
      hide OrderBook.Valid, OrderBook.Book, OrderBook.Limits, FillsOf, IsFlat, Greedy, Swept, Crossed, MetIn, Reaches,
           OrderMaps.OrderMap.Valid, OrderMaps.OrderMap.Contents;
      ghost var j := Job(book.Book(), book.Limits(), f, a, qty, ts, id);
      g := Greedy(f, a, qty);
      book.BookWellFormed();
      SweptStart(j);
      var stopped, out, met;
      ghost var hits, cur;
      remaining, out, met, stopped, hits, cur := SweepBook(ts, id, a, qty, j);
      SweptEnd(j, book.Book(), hits, cur, remaining, out, met, stopped);
      fills, log := fills + out, log + out;
      selfMatches := selfMatches + met + (if stopped then 1 else 0);
    }

    method SweepBook(ts: Nanos, id: OrderId, a: Incoming, qty: Qty, ghost j: Job)
      returns (remaining: Qty, fills: seq<Fill>, met: nat, stopped: bool, ghost hits: seq<Hit>, ghost cur: Flat)
      requires book.Valid() && Swept(j, book.Book(), [], j.f, qty, [], 0)
      requires qty >= 0 && ts == j.ts && id == j.id && a == j.a && a.rule == rule
      modifies book.Owned
      ensures book.Valid() && Swept(j, book.Book(), hits, cur, remaining, fills, met)
      ensures if stopped then AtOwn(a, cur, remaining) else remaining == 0 || Ends(cur, a)
    {
      hide Swept, OrderBook.Valid, OrderBook.Book, OrderBook.Limits, IsBest, Reaches, LadderOf;
      remaining, fills, met, stopped, hits, cur := qty, [], 0, false, [], j.f;
      while remaining > 0
        invariant book.Valid() && Swept(j, book.Book(), hits, cur, remaining, fills, met) && remaining >= 0 && !stopped
        decreases |cur|, remaining
      {
        TouchReads(j, book.Book(), hits, cur, remaining, fills, met);
        var has := book.HasBest(Opposite(a.side));
        if !has {
          break;
        }
        var lvl := book.Best(Opposite(a.side));
        BestUnique(LadderOf(book.Book(), Opposite(a.side)), Opposite(a.side), lvl, cur[0].price);
        if a.limit.Some? && !Through(a.side, a.limit.value, lvl) {
          ReachesLimit(a, lvl);
          break;
        }
        ReachesLimit(a, lvl);
        var progressed;
        remaining, fills, met, stopped, progressed, hits, cur :=
          DrainLevel(lvl, ts, id, a, remaining, fills, met, j, hits, cur);
        if stopped {
          return;
        }
        if !progressed {
          break;
        }
      }
    }

    // Sweeps within the price, then offers the book exactly what is left.
    method SubmitLimit(ts: Nanos, id: OrderId, s: Side, price: Ticks, qty: Qty, mine: bool, ghost f: Flat)
      returns (r: SubmitResult, ghost g: Sweep, ghost mid: Book)
      requires Valid() && IsFlat(book.Book(), Opposite(s), f)
      modifies Owned
      ensures Valid() && base == old(base)
      ensures qty <= 0 ==>
                r == SubmitResult(0, 0, old(|fills|), 0, BadQuantity) && fills == old(fills) && log == old(log)
                && book.Book() == old(book.Book())
      ensures qty > 0 ==>
                var a := Incoming(s, Some(price), mine, rule);
                && Crossed(Job(old(book.Book()), book.Limits(), f, a, qty, ts, id), g, mid)
                && log == old(log) + FillsOf(g.hits, ts, id, Opposite(s), mine)
                && fills == old(fills) + FillsOf(g.hits, ts, id, Opposite(s), mine)
                && r.filled == qty - g.remaining && r.firstFill == old(|fills|)
                && r.nFills == |FillsOf(g.hits, ts, id, Opposite(s), mine)|
                && (if g.remaining <= 0 then book.Book() == mid && r.error.Ok? && r.resting == 0
                    else Outcome(book.Book(), r.error) == AddOp(mid, book.Limits(), id, s, price, g.remaining, mine)
                         && r.resting == if r.error.Ok? then g.remaining else 0)
    {
      hide OrderBook.Valid, OrderBook.Book, OrderBook.Limits, FillsOf, IsFlat, Crossed, MetIn, AddOp;
      g, mid := Sweep([], f, 0, false), book.Book();
      var firstFill := |fills|;
      if qty <= 0 {
        return SubmitResult(0, 0, firstFill, 0, BadQuantity), g, mid;
      }
      var remaining;
      remaining, g := Cross(ts, id, Incoming(s, Some(price), mine, rule), qty, f);
      mid := book.Book();
      r := SubmitResult(qty - remaining, 0, firstFill, |fills| - firstFill, Ok);
      if remaining > 0 {
        var err := book.Add(id, s, price, remaining, mine);
        r := r.(error := err);
        if err.Ok? {
          r := r.(resting := remaining);
        }
      }
    }

    // Sweeps without a limit; the book gains nothing.
    method SubmitMarket(ts: Nanos, id: OrderId, s: Side, qty: Qty, mine: bool, ghost f: Flat)
      returns (r: SubmitResult, ghost g: Sweep)
      requires Valid() && IsFlat(book.Book(), Opposite(s), f)
      modifies Owned
      ensures Valid() && base == old(base)
      ensures qty <= 0 ==>
                r == SubmitResult(0, 0, old(|fills|), 0, BadQuantity) && fills == old(fills) && log == old(log)
                && book.Book() == old(book.Book())
      ensures qty > 0 ==>
                && Crossed(Job(old(book.Book()), book.Limits(), f, Incoming(s, None, mine, rule), qty, ts, id), g,
                   book.Book())
                && log == old(log) + FillsOf(g.hits, ts, id, Opposite(s), mine)
                && fills == old(fills) + FillsOf(g.hits, ts, id, Opposite(s), mine)
                && r == SubmitResult(qty - g.remaining, 0, old(|fills|), |FillsOf(g.hits, ts, id, Opposite(s), mine)|,
                   Ok)
    {
      hide OrderBook.Valid, OrderBook.Book, OrderBook.Limits, FillsOf, IsFlat, Crossed, MetIn;
      g := Sweep([], f, 0, false);
      var firstFill := |fills|;
      if qty <= 0 {
        return SubmitResult(0, 0, firstFill, 0, BadQuantity), g;
      }
      var remaining;
      remaining, g := Cross(ts, id, Incoming(s, None, mine, rule), qty, f);
      r := SubmitResult(qty - remaining, 0, firstFill, |fills| - firstFill, Ok);
    }

    method Cancel(id: OrderId) returns (r: BookError)
      requires Valid()
      modifies Owned
      ensures Valid() && fills == old(fills) && log == old(log) && base == old(base)
      ensures Outcome(book.Book(), r) == RemoveOp(old(book.Book()), id)
    {
      hide OrderBook.Valid, OrderBook.Book, RemoveOp;
      r := book.Remove(id);
    }

    // ---- of all fills ever made, only the latest are kept ----

    // A fill by its global index, while it is still in the window.
    method FillAt(i: nat) returns (f: Fill)
      requires Valid() && base <= i < base + |fills|
      ensures i < |log| && f == log[i]
    {
      f := fills[i - base];
    }

    // The window starts at fill i from now on, unless it starts later already.
    method ConsumeThrough(i: nat)
      requires Valid()
      modifies this`fills, this`base
      ensures Valid() && book.Book() == old(book.Book())
      ensures base == Max(old(base), Min(i, |log|)) && fills == log[base..]
    {
      hide OrderBook.Valid, OrderBook.Book;
      if i <= base {
        return;
      }
      var n := Min(i - base, |fills|);
      fills := fills[n..];
      base := base + n;
    }

    method ClearFills()
      requires Valid()
      modifies this`fills, this`base
      ensures Valid() && base == |log| && fills == []
    {
      hide OrderBook.Valid, OrderBook.Book;
      base := base + |fills|;
      fills := [];
    }
  }
}
