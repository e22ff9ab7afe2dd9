// What our actions, and the market's events, do to our position, and what an action
// leaves behind: said by sides and sizes, over any book.
module VenueLaws {
  import opened Types
  import opened Queues
  import opened BookSpec
  import opened BookViews
  import opened BookRuns
  import opened Flatten
  import opened MatchSpec
  import opened Matching
  import opened MatchLaws
  import opened Ledgers
  import opened Venues

  // Size that hit orders of ours, and size that hit everyone else's.
  function OwnQty(fills: seq<Fill>): Qty {
    if fills == [] then 0 else (if fills[0].restingMine then fills[0].qty else 0) + OwnQty(fills[1..])
  }

  function OthersQty(fills: seq<Fill>): Qty {
    if fills == [] then 0 else (if fills[0].restingMine then 0 else fills[0].qty) + OthersQty(fills[1..])
  }

  // A buyer gains what a seller gives.
  function Toward(s: Side, qty: Qty): int {
    if s.Bid? then qty else -qty
  }

  // The fills of one incoming order: one side of the book, one aggressor.
  predicate OfOne(fills: seq<Fill>, s: Side, mine: bool) {
    forall k | 0 <= k < |fills| :: fills[k].restingSide == s && fills[k].aggressorMine == mine
  }

  lemma {:induction false} PositionAfter(log: seq<Fill>, fills: seq<Fill>, s: Side, mine: bool)
    requires OfOne(fills, s, mine)
    ensures Position(log + fills)
         == Position(log) + Toward(s, OwnQty(fills)) + if mine then Toward(Opposite(s), OthersQty(fills)) else 0
    decreases |fills|
  {
    if fills == [] {
      assert log + fills == log;
    } else {
      var x := fills[0];
      assert fills[0].restingSide == s;
      assert OfOne(fills[1..], s, mine) by {
        assert forall k | 0 <= k < |fills[1..]| :: fills[1..][k] == fills[k + 1];
      }
      PositionAfter(log + [x], fills[1..], s, mine);
      assert log + fills == (log + [x]) + fills[1..];
      assert (log + [x])[..|log|] == log;
    }
  }

  lemma {:induction false} OwnAndOthers(fills: seq<Fill>)
    ensures SumFills(fills) == OwnQty(fills) + OthersQty(fills)
  {
    if fills != [] {
      OwnAndOthers(fills[1..]);
    }
  }

  lemma {:induction false} NoneOwn(fills: seq<Fill>)
    requires forall k | 0 <= k < |fills| :: !fills[k].restingMine
    ensures OwnQty(fills) == 0
  {
    if fills != [] {
      assert forall k | 0 <= k < |fills[1..]| :: fills[1..][k] == fills[k + 1];
      NoneOwn(fills[1..]);
    }
  }

  // The fills an order made.
  function New(v: Venue, v': Venue): seq<Fill> {
    From(v'.log, |v.log|)
  }

  // The sweep behind an order, as a job.
  ghost function JobOf(v: Venue, lim: Limits, a: Incoming, qty: Qty, ts: Nanos, id: OrderId): Job {
    Job(v.book, lim, PriceTime(v.book, Opposite(a.side)), a, qty, ts, id)
  }

  lemma TakenFills(v: Venue, lim: Limits, a: Incoming, qty: Qty, ts: Nanos, id: OrderId)
    ensures var v' := Taken(v, lim, a, qty, ts, id);
            && v.log <= v'.log && v'.log == v.log + New(v, v')
            && New(v, v') == if qty <= 0 then [] else SweepFills(JobOf(v, lim, a, qty, ts, id))
  {
    hide Run, Greedy, FillsOf;
    assert qty <= 0 ==> v.log + [] == v.log;
  }

  // Each fill of an order is at its own hand and time, against an order that rested
  // on the other side of the book at the fill's price, within the order's limit.
  lemma TakenIsReal(v: Venue, lim: Limits, a: Incoming, qty: Qty, ts: Nanos, id: OrderId, k: nat)
    requires WellFormed(v.book) && k < |New(v, Taken(v, lim, a, qty, ts, id))|
    ensures var x := New(v, Taken(v, lim, a, qty, ts, id))[k];
            && x.aggressorId == id && x.ts == ts && x.aggressorMine == a.mine && x.restingSide == Opposite(a.side)
            && x.restingId in v.book.index && v.book.index[x.restingId] == Loc(Opposite(a.side), x.price)
            && 0 < x.qty <= QtyOfSpec(v.book, x.restingId) && x.restingMine == IsMineSpec(v.book, x.restingId)
            && (a.limit.Some? ==> Through(a.side, a.limit.value, x.price))
            && (a.mine && x.restingMine ==> a.rule.Allow?)
  {
    hide WellFormed, IsFlat, Taken;
    var j := JobOf(v, lim, a, qty, ts, id);
    TakenFills(v, lim, a, qty, ts, id);
    FillsAreReal(j, k);
    FlatPositive(j.b0, Opposite(a.side), j.f);
    FillsTakeTheList(j);
    assert Took(SweepFills(j)[k], Tradable(j.f, j.a)[k], j, k == |SweepFills(j)| - 1);
  }

  lemma TakenIsOfOne(v: Venue, lim: Limits, a: Incoming, qty: Qty, ts: Nanos, id: OrderId)
    requires WellFormed(v.book)
    ensures var x := New(v, Taken(v, lim, a, qty, ts, id));
            OfOne(x, Opposite(a.side), a.mine) && (a.mine && !a.rule.Allow? ==> OwnQty(x) == 0)
  {
    hide WellFormed, Taken;
    var x := New(v, Taken(v, lim, a, qty, ts, id));
    forall k | 0 <= k < |x|
      ensures x[k].restingSide == Opposite(a.side) && x[k].aggressorMine == a.mine
      ensures a.mine && !a.rule.Allow? ==> !x[k].restingMine
    {
      TakenIsReal(v, lim, a, qty, ts, id, k);
    }
    if a.mine && !a.rule.Allow? {
      NoneOwn(x);
    }
  }

  // An order of ours moves our position its own way by what it took from others, and
  // back by what it took from us; one from elsewhere moves it by what it took from us.
  lemma TakenMoves(v: Venue, lim: Limits, a: Incoming, qty: Qty, ts: Nanos, id: OrderId)
    requires WellFormed(v.book)
    ensures var v' := Taken(v, lim, a, qty, ts, id);
            var x := New(v, v');
            && Position(v'.log) == Position(v.log) + Toward(a.side, (if a.mine then OthersQty(x) else 0) - OwnQty(x))
            && (a.mine && !a.rule.Allow? ==> Position(v'.log) == Position(v.log) + Toward(a.side, SumFills(x)))
  {
    hide WellFormed, Taken, Position;
    var x := New(v, Taken(v, lim, a, qty, ts, id));
    TakenFills(v, lim, a, qty, ts, id);
    TakenIsOfOne(v, lim, a, qty, ts, id);
    PositionAfter(v.log, x, Opposite(a.side), a.mine);
    OwnAndOthers(x);
  }

  // Where self-trading is not allowed, a market or limit action of ours moves our
  // position up by what it filled when it buys, and down when it sells; allowed, what
  // hit our own orders counts the other way. A cancel moves nothing.
  lemma ActionMoves(v: Venue, t: Terms, a: Action, at: Nanos)
    requires WellFormed(v.book)
    ensures var v' := Acted(v, t, a, at);
            var x := New(v, v');
            && (a.kind.Cancel? ==> Position(v'.log) == Position(v.log) && x == [])
            && (!a.kind.Cancel? && !t.rule.Allow? ==> Position(v'.log) == Position(v.log) + Toward(a.side, SumFills(x)))
            && (!a.kind.Cancel? ==>
                  Position(v'.log) == Position(v.log) + Toward(a.side, OthersQty(x)) - Toward(a.side, OwnQty(x)))
  {
    hide WellFormed, Taken, Position, AddOp, RemoveOp, SweepOf;
    match a.kind
    case Limit => TakenMoves(v, t.lim, Incoming(a.side, Some(a.price), true, t.rule), a.qty, at, a.id);
    case Market => TakenMoves(v, t.lim, Incoming(a.side, None, true, t.rule), a.qty, at, a.id);
    case Cancel =>
  }

  // A market order from elsewhere moves our position up by our bids it sold to, and
  // down by our asks it bought; any other event moves nothing.
  lemma EventMoves(v: Venue, t: Terms, e: BookEvent)
    requires WellFormed(v.book)
    ensures var v' := Handled(v, t, e);
            var x := New(v, v');
            && (!e.kind.Aggress? ==> Position(v'.log) == Position(v.log) && x == [])
            && (e.kind.Aggress? ==> Position(v'.log) == Position(v.log) + Toward(Opposite(e.side), OwnQty(x)))
  {
    hide WellFormed, Taken, Position, Apply;
    if e.kind.Aggress? {
      TakenMoves(v, t.lim, Incoming(e.side, None, false, t.rule), e.qty, e.ts, e.orderId);
    }
  }

  // A limit action fills what the sweep took; the rest of it, if the book accepts it,
  // rests as ours on its own side at its own price, behind all that rests there. A
  // market action fills as much and rests nothing.
  lemma LimitRests(v: Venue, t: Terms, a: Action, at: Nanos)
    requires WellFormed(v.book) && a.kind.Limit? && a.qty > 0 && t.lim.Limited?
    ensures var v' := Acted(v, t, a, at);
            var filled := SumFills(New(v, v'));
            var mid := Taken(v, t.lim, Incoming(a.side, Some(a.price), true, t.rule), a.qty, at, a.id).book;
            && 0 <= filled <= a.qty && WellFormed(mid)
            && (filled == a.qty ==> v'.book == mid)
            && (filled < a.qty && AddError(mid, t.lim, a.id, a.side, a.price, a.qty - filled).Ok? ==>
                  && v'.book.index == mid.index[a.id := Loc(a.side, a.price)]
                  && QtyOfSpec(v'.book, a.id) == a.qty - filled && IsMineSpec(v'.book, a.id)
                  && QueueAhead(v'.book, a.id) == Total(QueueAt(mid, a.side, a.price)))
            && (filled < a.qty && !AddError(mid, t.lim, a.id, a.side, a.price, a.qty - filled).Ok? ==> v'.book == mid)
  {
    hide WellFormed, Run, Greedy, FillsOf, AddError, IsMineSpec, QtyOfSpec, QueueAhead, IsFlat;
    var x := Incoming(a.side, Some(a.price), true, t.rule);
    var j := JobOf(v, t.lim, x, a.qty, at, a.id);
    TakenFills(v, t.lim, x, a.qty, at, a.id);
    SweptFilled(j);
    var mid := Taken(v, t.lim, x, a.qty, at, a.id).book;
    RunKeepsWellFormed(v.book, t.lim, EventsOf(SweepOf(v.book, x, a.qty).hits, Opposite(a.side)));
    var left := SweepOf(v.book, x, a.qty).remaining;
    if left > 0 && AddError(mid, t.lim, a.id, a.side, a.price, left).Ok? {
      AddLeaves(mid, t.lim, a.id, a.side, a.price, left, true);
    }
  }

  // A cancel takes its order off the book, if it is there, and does nothing else.
  lemma CancelRemoves(v: Venue, t: Terms, a: Action, at: Nanos, l: Ledger, n: nat)
    requires Kept(l, v.book, n) && a.kind.Cancel?
    ensures Acted(v, t, a, at).log == v.log && Kept(l - {a.id}, Acted(v, t, a, at).book, n + 1)
  {
    hide Kept;
    DoKept(l, v.book, t.lim, Pull(a.id), n);
    assert a.id !in l ==> l - {a.id} == l;
  }

  lemma SweptFilled(j: Job)
    requires WellFormed(j.b0) && IsFlat(j.b0, Opposite(j.a.side), j.f) && j.qty > 0
    ensures SumFills(SweepFills(j)) == j.qty - Greedy(j.f, j.a, j.qty).remaining
    ensures 0 <= Greedy(j.f, j.a, j.qty).remaining <= j.qty
  {
    hide WellFormed, IsFlat, Greedy, FillsOf;
    FlatPositive(j.b0, Opposite(j.a.side), j.f);
    GreedyConserves(j.f, j.a, j.qty);
    FillsSum(Greedy(j.f, j.a, j.qty).hits, j.ts, j.id, Opposite(j.a.side), j.a.mine);
  }

  // The laws hold at every moment of a day.
  lemma {:induction false} AlwaysWellFormed(t: Terms, hs: seq<Happening>)
    ensures WellFormed(VenueAfter(t, hs).book)
    decreases |hs|
  {
    hide Venues.After, WellFormed;
    if hs == [] {
      EmptyWellFormed();
    } else {
      AlwaysWellFormed(t, hs[..|hs| - 1]);
      AfterWellFormed(VenueAfter(t, hs[..|hs| - 1]), t, hs[|hs| - 1]);
    }
  }

  lemma AfterWellFormed(v: Venue, t: Terms, h: Happening)
    requires WellFormed(v.book)
    ensures WellFormed(Venues.After(v, t, h).book)
  {
    hide WellFormed, Run, Apply, Taken, AddOp, RemoveOp;
    match h
    case Theirs(e) =>
      if e.kind.Aggress? {
        TakenWellFormed(v, t.lim, Incoming(e.side, None, false, t.rule), e.qty, e.ts, e.orderId);
      } else {
        ApplyKeepsWellFormed(v.book, t.lim, e);
      }
    case Ours(a, at) =>
      if a.kind.Cancel? {
        DoKeepsWellFormed(v.book, t.lim, Pull(a.id));
      } else {
        var x := Incoming(a.side, if a.kind.Limit? then Some(a.price) else None, true, t.rule);
        TakenWellFormed(v, t.lim, x, a.qty, at, a.id);
        var mid := Taken(v, t.lim, x, a.qty, at, a.id).book;
        AddKeepsWellFormed(mid, t.lim, a.id, a.side, a.price, SweepOf(v.book, x, a.qty).remaining, true);
      }
  }

  lemma TakenWellFormed(v: Venue, lim: Limits, a: Incoming, qty: Qty, ts: Nanos, id: OrderId)
    requires WellFormed(v.book)
    ensures WellFormed(Taken(v, lim, a, qty, ts, id).book)
  {
    hide WellFormed, Run;
    RunKeepsWellFormed(v.book, lim, EventsOf(SweepOf(v.book, a, qty).hits, Opposite(a.side)));
  }

  // What is published of a market order: executions dated and numbered as the order,
  // each of an order that rested on the other side, with at least that size.
  lemma SaidIsReal(v: Venue, t: Terms, e: BookEvent, k: nat)
    requires WellFormed(v.book) && e.kind.Aggress?
    requires k < |Itself(e) + EchoesOf(New(v, Handled(v, t, e)), e.seqNo)|
    ensures var x := (Itself(e) + EchoesOf(New(v, Handled(v, t, e)), e.seqNo))[k];
            && x.kind.Execute? && x.ts == e.ts && x.seqNo == e.seqNo && x.side == Opposite(e.side)
            && x.orderId in v.book.index && v.book.index[x.orderId].side == x.side
            && 0 < x.qty <= QtyOfSpec(v.book, x.orderId)
  {
    hide WellFormed, Taken;
    TakenIsReal(v, t.lim, Incoming(e.side, None, false, t.rule), e.qty, e.ts, e.orderId, k);
  }

  // ---- our position over a day ----

  // What one happening moves, by its side and the sizes of the fills it made.
  ghost function Moved(v: Venue, t: Terms, h: Happening): int {
    var x := New(v, Venues.After(v, t, h));
    match h
    case Theirs(e) => if e.kind.Aggress? then Toward(Opposite(e.side), OwnQty(x)) else 0
    case Ours(a, at) => if a.kind.Cancel? then 0 else Toward(a.side, OthersQty(x) - OwnQty(x))
  }

  ghost function Net(t: Terms, hs: seq<Happening>): int {
    if hs == [] then 0
    else Net(t, hs[..|hs| - 1]) + Moved(VenueAfter(t, hs[..|hs| - 1]), t, hs[|hs| - 1])
  }

  // What we hold is what we took from others, and they from us, each the right way.
  lemma {:induction false} PositionIsNet(t: Terms, hs: seq<Happening>)
    ensures Position(VenueAfter(t, hs).log) == Net(t, hs)
    decreases |hs|
  {
    hide WellFormed, Acted, Handled, Position, New;
    if hs == [] {
      assert Position([]) == 0 by { NothingHeld(); }
    } else {
      var before, h := hs[..|hs| - 1], hs[|hs| - 1];
      PositionIsNet(t, before);
      AlwaysWellFormed(t, before);
      match h
      case Theirs(e) => EventMoves(VenueAfter(t, before), t, e);
      case Ours(a, at) => ActionMoves(VenueAfter(t, before), t, a, at);
    }
  }

  lemma NothingHeld()
    ensures Position([]) == 0
  {
  }
}
