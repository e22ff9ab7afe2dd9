// The simulator's two books: the exchange's own, and the agent's, which hears of
// everything later. Latencies are arbitrary; the agent acts through delayed
// actions and says how far it has read the fill log, truthfully or not.
module Simulators {
  import opened Types
  import opened Queues
  import opened BookSpec
  import opened Flatten
  import opened MatchSpec
  import opened Matching
  import opened OrderMaps
  import opened OrderBooks
  import opened Venues
  import opened VenueLaws

  datatype Delayed = Delayed(arrive: Nanos, e: BookEvent)

  // ---- the lag ----

  // The view is the book after all the published events but the pending ones.
  ghost predicate Lags(view: Book, lim: Limits, ops: seq<BookEvent>, pending: seq<Delayed>) {
    && |pending| <= |ops|
    && view == Run(EMPTY_BOOK, lim, ops[..|ops| - |pending|])
    && forall k | 0 <= k < |pending| :: pending[k].e == ops[|ops| - |pending| + k]
  }

  lemma LagsPush(view: Book, lim: Limits, ops: seq<BookEvent>, pending: seq<Delayed>, d: Delayed)
    requires Lags(view, lim, ops, pending)
    ensures Lags(view, lim, ops + [d.e], pending + [d])
  {
    hide Run;
    assert (ops + [d.e])[..|ops| - |pending|] == ops[..|ops| - |pending|];
  }

  lemma LagsPop(view: Book, lim: Limits, ops: seq<BookEvent>, pending: seq<Delayed>)
    requires Lags(view, lim, ops, pending) && pending != []
    ensures Lags(Apply(view, lim, pending[0].e).book, lim, ops, pending[1..])
  {
    hide Run, Apply;
    var n := |ops| - |pending|;
    assert ops[..n + 1] == ops[..n] + [ops[n]];
    RunSnoc(EMPTY_BOOK, lim, ops[..n], ops[n]);
  }

  lemma LagsNow(view: Book, lim: Limits, ops: seq<BookEvent>, e: BookEvent)
    requires Lags(view, lim, ops, [])
    ensures Lags(Apply(view, lim, e).book, lim, ops + [e], [])
  {
    hide Run, Apply;
    assert ops[..|ops|] == ops && (ops + [e])[..|ops| + 1] == ops + [e];
    RunSnoc(EMPTY_BOOK, lim, ops, e);
  }

  lemma NothingPending(view: Book, lim: Limits, ops: seq<BookEvent>)
    requires Lags(view, lim, ops, [])
    ensures view == Run(EMPTY_BOOK, lim, ops)
  {
    assert ops[..|ops|] == ops;
  }

  predicate NotLater(a: Action, b: Action) {
    a.arrive < b.arrive || (a.arrive == b.arrive && (a.decided < b.decided || (a.decided == b.decided && a.id <= b.id)))
  }

  // What arrives first goes first; of two that arrive together the one decided first,
  // and of those the one with the lower id.
  lemma GoesFirst(a: Action, b: Action)
    requires a.arrive < b.arrive || (a.arrive == b.arrive && a.decided < b.decided)
             || (a.arrive == b.arrive && a.decided == b.decided && a.id < b.id)
    ensures NotLater(a, b) && !NotLater(b, a)
  {
  }

  // ---- the order our actions land in ----

  // These actions, in this order, are all of the queue that has arrived by t.
  ghost predicate LandsInTurn(queue: seq<Action>, t: Nanos, landed: seq<Action>, left: seq<Action>) {
    && multiset(queue) == multiset(landed) + multiset(left)
    && (forall a | a in landed :: a.arrive <= t)
    && (forall j, k | 0 <= j < k < |landed| :: NotLater(landed[j], landed[k]))
    && (forall a, b | a in landed && b in left :: NotLater(a, b))
  }

  lemma NoneLanded(queue: seq<Action>, t: Nanos)
    ensures LandsInTurn(queue, t, [], queue)
  {
  }

  lemma NextLands(queue: seq<Action>, t: Nanos, landed: seq<Action>, left: seq<Action>, k: nat)
    requires LandsInTurn(queue, t, landed, left) && k < |left| && left[k].arrive <= t
    requires forall j | 0 <= j < |left| :: NotLater(left[k], left[j])
    ensures LandsInTurn(queue, t, landed + [left[k]], Without(left, k))
  {
    assert left == left[..k] + [left[k]] + left[k + 1..];
    assert multiset(left) == multiset{left[k]} + multiset(Without(left, k));
    forall b | b in Without(left, k) ensures b in left {
    }
  }

  lemma NothingToLand(queue: seq<Action>, t: Nanos, landed: seq<Action>, left: seq<Action>)
    requires LandsInTurn(queue, t, landed, left) && queue == []
    ensures landed == [] && left == []
  {
    assert |multiset(queue)| == |landed| + |left|;
  }

  function OursOf(acts: seq<Action>, now: Nanos): seq<Happening> {
    seq(|acts|, k requires 0 <= k < |acts| => Ours(acts[k], Stamp(acts[k], now)))
  }

  // An action is dated when it reached the exchange.
  function Stamp(a: Action, now: Nanos): Nanos {
    if a.arrive > 0 then a.arrive else now
  }

  lemma OursSnoc(acts: seq<Action>, a: Action, now: Nanos)
    ensures OursOf(acts + [a], now) == OursOf(acts, now) + [Ours(a, Stamp(a, now))]
  {
  }

  lemma OursNone(now: Nanos)
    ensures OursOf([], now) == []
  {
  }

  // Our actions publish nothing by themselves.
  lemma {:induction false} OursSaid(t: Terms, hs: seq<Happening>, acts: seq<Action>, now: Nanos)
    ensures var hs' := hs + OursOf(acts, now); SeenAfter(t, hs') == SeenAfter(t, hs) && SaidBy(t, hs') == SaidBy(t, hs)
    decreases |acts|
  {
    hide VenueAfter, SeenAfter, SaidBy;
    if acts == [] {
      assert hs + OursOf(acts, now) == hs;
    } else {
      var init, a := acts[..|acts| - 1], acts[|acts| - 1];
      OursSaid(t, hs, init, now);
      OursSnoc(init, a, now);
      assert acts == init + [a];
      assert hs + OursOf(acts, now) == hs + OursOf(init, now) + [Ours(a, Stamp(a, now))];
      Happens(t, hs + OursOf(init, now), Ours(a, Stamp(a, now)));
    }
  }

  function TheirsOf(es: seq<BookEvent>): seq<Happening> {
    seq(|es|, k requires 0 <= k < |es| => Theirs(es[k]))
  }

  // The market events among what happened.
  function MarketOf(hs: seq<Happening>): seq<BookEvent> {
    if hs == [] then [] else MarketOf(hs[..|hs| - 1]) + (if hs[|hs| - 1].Theirs? then [hs[|hs| - 1].e] else [])
  }

  lemma MarketSnoc(hs: seq<Happening>, h: Happening)
    ensures MarketOf(hs + [h]) == MarketOf(hs) + (if h.Theirs? then [h.e] else [])
  {
    assert (hs + [h])[..|hs|] == hs;
  }

  lemma {:induction false} OursAreNoMarket(hs: seq<Happening>, acts: seq<Action>, now: Nanos)
    ensures MarketOf(hs + OursOf(acts, now)) == MarketOf(hs)
    decreases |acts|
  {
    hide MarketOf;
    if acts == [] {
      assert hs + OursOf(acts, now) == hs;
    } else {
      var init, a := acts[..|acts| - 1], acts[|acts| - 1];
      OursAreNoMarket(hs, init, now);
      OursSnoc(init, a, now);
      assert acts == init + [a];
      assert hs + OursOf(acts, now) == hs + OursOf(init, now) + [Ours(a, Stamp(a, now))];
      MarketSnoc(hs + OursOf(init, now), Ours(a, Stamp(a, now)));
    }
  }

  lemma MarketAfterTurn(hs: seq<Happening>, acts: seq<Action>, e: BookEvent)
    ensures MarketOf(hs + OursOf(acts, e.ts) + [Theirs(e)]) == MarketOf(hs) + [e]
  {
    hide MarketOf, OursOf;
    OursAreNoMarket(hs, acts, e.ts);
    MarketSnoc(hs + OursOf(acts, e.ts), Theirs(e));
  }

  lemma TheirsSnoc(es: seq<BookEvent>, k: nat)
    requires k <= |es|
    ensures k == 0 ==> TheirsOf(es[..k]) == []
    ensures k < |es| ==> TheirsOf(es[..k + 1]) == TheirsOf(es[..k]) + [Theirs(es[k])]
  {
  }

  class Simulator {
    const trueBook: OrderBook
    const viewBook: OrderBook
    const matcher: MatchingEngine
    const useLatency: bool
    var inflight: seq<Action>
    var pending: seq<Delayed>
    var fillsSeen: nat
    var agentRead: nat
    var now: Nanos
    var inventory: int
    // All that has happened at the exchange, and all that has been handed towards
    // the agent, in order.
    ghost var happened: seq<Happening>
    ghost var ops: seq<BookEvent>

    ghost predicate Shape()
      reads this, matcher, matcher.Owned, viewBook.Owned
      ensures Shape() ==> viewBook.ids.Valid() && trueBook.ids.Valid()
    {
      && matcher.book == trueBook && viewBook.Owned !! matcher.Owned
      && this !in viewBook.Owned && this !in matcher.Owned
      && matcher.Valid() && viewBook.Valid() && trueBook.Limits() == viewBook.Limits()
    }

    // No fill has left the window before it was published.
    ghost predicate Publishing()
      reads this, matcher
    {
      matcher.base <= fillsSeen <= |matcher.log|
    }

    ghost function Terms(): Terms
      requires viewBook.ids.Valid()
      reads viewBook.Owned
    {
      Venues.Terms(viewBook.Limits(), matcher.rule)
    }

    ghost function Venue(): Venue
      requires Shape()
      reads this, matcher, matcher.Owned, viewBook.Owned
    {
      Venues.Venue(trueBook.Book(), matcher.log)
    }

    // The exchange is where all that happened puts it.
    ghost predicate Recorded()
      requires Shape()
      reads this, matcher, matcher.Owned, viewBook.Owned
    {
      Venue() == VenueAfter(Terms(), happened)
    }

    // What has been published is what a feed says of all that happened.
    ghost predicate Told()
      requires Shape()
      reads this, matcher, matcher.Owned, viewBook.Owned
    {
      fillsSeen == SeenAfter(Terms(), happened) && ops == SaidBy(Terms(), happened)
    }

    ghost predicate Lagging()
      requires viewBook.ids.Valid()
      reads this, viewBook.Owned
    {
      Lags(viewBook.Book(), viewBook.Limits(), ops, pending) && (!useLatency ==> pending == [])
    }

    ghost predicate Valid()
      reads this, matcher, matcher.Owned, viewBook.Owned
      ensures Valid() ==> Shape()
    {
      && Shape() && Recorded() && Told() && Publishing() && Lagging() && inventory == Position(matcher.log)
    }

    // The agent has sent nothing.
    ghost predicate Untouched()
      reads this
    {
      (forall h | h in happened :: h.Theirs?) && inflight == []
    }

    constructor (trueBook: OrderBook, viewBook: OrderBook, matcher: MatchingEngine, useLatency: bool)
      requires matcher.book == trueBook && viewBook.Owned !! matcher.Owned && matcher.Valid() && viewBook.Valid()
      requires trueBook.Limits() == viewBook.Limits() && matcher.log == [] && matcher.base == 0
      requires trueBook.Book() == EMPTY_BOOK == viewBook.Book()
      ensures Valid() && Untouched() && fresh(this) && happened == []
      ensures this.trueBook == trueBook && this.viewBook == viewBook && this.matcher == matcher
              && this.useLatency == useLatency
    {
      hide OrderBook.Valid, OrderBook.Book, OrderBook.Limits, OrderMap.Valid, OrderMap.Contents, MatchingEngine.Valid;
      this.trueBook, this.viewBook, this.matcher, this.useLatency := trueBook, viewBook, matcher, useLatency;
      inflight, pending, fillsSeen, agentRead, now, inventory := [], [], 0, 0, 0, 0;
      ops, happened := [], [];
    }

    // ---- the way to the agent ----

    method Deliver(e: BookEvent, t: Nanos)
      requires Shape() && Lagging()
      modifies this`pending, this`ops, viewBook.Owned
      ensures Shape() && Lagging() && ops == old(ops) + [e]
    {
      hide OrderBook.Valid, OrderBook.Book, OrderBook.Limits, MatchingEngine.Valid, Apply, Lags, OrderMap.Valid,
           OrderMap.Contents;
      if useLatency {
        var delay: Nanos := *;
        LagsPush(viewBook.Book(), viewBook.Limits(), ops, pending, Delayed(t + delay, e));
        pending := pending + [Delayed(t + delay, e)];
      } else {
        LagsNow(viewBook.Book(), viewBook.Limits(), ops, e);
        var r := viewBook.ApplyEvent(e);
      }
      ops := ops + [e];
    }

    method DrainMarketData(t: Nanos)
      requires Shape() && Lagging()
      modifies this`pending, viewBook.Owned
      ensures Shape() && Lagging()
      ensures pending == [] || pending[0].arrive > t
    {
      hide Simulator.Shape, Simulator.Lagging, MatchingEngine.Valid, OrderBook.Valid;
      while pending != [] && pending[0].arrive <= t
        invariant Shape() && Lagging()
        decreases |pending|
      {
        HearNext();
      }
    }

    // The oldest pending event reaches the agent's book.
    method HearNext()
      requires Shape() && Lagging() && pending != []
      modifies this`pending, viewBook.Owned
      ensures Shape() && Lagging() && pending == old(pending)[1..]
    {
      hide OrderBook.Valid, OrderBook.Book, OrderBook.Limits, MatchingEngine.Valid, Apply, Lags, OrderMap.Valid,
           OrderMap.Contents, MatchingEngine.WindowOk;
      LagsPop(viewBook.Book(), viewBook.Limits(), ops, pending);
      var r := viewBook.ApplyEvent(pending[0].e);
      pending := pending[1..];
    }

    // Publish every fill made since last time, whoever caused it.
    method PublishNewFills(seqNo: nat)
      requires Shape() && Lagging() && Publishing()
      modifies this`pending, this`ops, this`fillsSeen, viewBook.Owned
      ensures Shape() && Lagging() && Publishing()
      ensures fillsSeen == |matcher.log|
      ensures ops == old(ops) + EchoesOf(matcher.log[old(fillsSeen)..], seqNo)
    {
      hide OrderBook.Valid, OrderBook.Book, OrderBook.Limits, Lags, EchoesOf, OrderMap.Valid, OrderMap.Contents;
      var k := fillsSeen;
      ghost var log := matcher.log;
      EchoesSnoc(log, fillsSeen, k, seqNo);
      while k < matcher.base + |matcher.fills|
        invariant Shape() && Lagging() && matcher.log == log
        invariant fillsSeen == old(fillsSeen) <= k <= |log|
        invariant ops == old(ops) + EchoesOf(log[fillsSeen..k], seqNo)
      {
        var f := matcher.FillAt(k);
        EchoesSnoc(log, fillsSeen, k, seqNo);
        Deliver(Echo(f, seqNo), f.ts);
        k := k + 1;
      }
      assert log[fillsSeen..k] == log[fillsSeen..];
      fillsSeen := matcher.base + |matcher.fills|;
    }

    // ---- the way to the exchange ----

    // Account for the fills from window position `from` on.
    method BookFills(from: nat)
      requires matcher.WindowOk() && from <= |matcher.fills|
               && inventory == Position(matcher.log[..matcher.base + from])
      modifies this`inventory
      ensures inventory == Position(matcher.log)
    {
      hide Position, Signed;
      var k := from;
      while k < |matcher.fills|
        invariant from <= k <= |matcher.fills| && inventory == Position(matcher.log[..matcher.base + k])
      {
        PositionSnoc(matcher.log, matcher.base + k);
        inventory := inventory + Signed(matcher.fills[k]);
        k := k + 1;
      }
      assert matcher.log[..matcher.base + k] == matcher.log;
    }

    // The action reaches the exchange; its fills wait to be published.
    method ApplyAction(a: Action)
      requires Shape() && Recorded() && inventory == Position(matcher.log)
      modifies this`inventory, this`happened, matcher.Owned
      ensures Shape() && Recorded() && inventory == Position(matcher.log)
      ensures happened == old(happened) + [Ours(a, Stamp(a, now))]
      ensures Venue() == Acted(old(Venue()), Terms(), a, Stamp(a, now))
      ensures old(matcher.log) <= matcher.log && matcher.base == old(matcher.base)
    {
      hide OrderBook.Valid, OrderBook.Book, OrderBook.Limits, Position, Acted, OrderMap.Valid, OrderMap.Contents,
           VenueAfter, SeenAfter, SaidBy;
      var before := |matcher.fills|;
      ghost var log := matcher.log;
      assert log[..matcher.base + before] == log;
      Happens(Terms(), happened, Ours(a, Stamp(a, now)));
      Act(a, Stamp(a, now));
      assert matcher.log[..|log|] == log;
      BookFills(before);
      happened := happened + [Ours(a, Stamp(a, now))];
    }

    method Act(a: Action, at: Nanos)
      requires Shape()
      modifies matcher.Owned
      ensures Shape() && Venue() == Acted(old(Venue()), Terms(), a, at)
      ensures matcher.base == old(matcher.base) && old(matcher.log) <= matcher.log
              && old(matcher.fills) <= matcher.fills
    {
      hide OrderBook.Valid, OrderBook.Book, OrderBook.Limits, IsFlat, Crossed, AddOp, RemoveOp, FillsOf,
           OrderMap.Valid, OrderMap.Contents, Taken, SweepOf;
      ghost var v := Venue();
      ghost var f := PriceTime(v.book, Opposite(a.side));
      match a.kind {
        case Limit =>
          var r;
          ghost var g, mid;
          r, g, mid := matcher.SubmitLimit(at, a.id, a.side, a.price, a.qty, true, f);
          TakenIs(v, trueBook.Limits(), Incoming(a.side, Some(a.price), true, matcher.rule), a.qty, at, a.id, g, mid);
        case Market =>
          var r;
          ghost var g;
          r, g := matcher.SubmitMarket(at, a.id, a.side, a.qty, true, f);
          TakenIs(v, trueBook.Limits(), Incoming(a.side, None, true, matcher.rule), a.qty, at, a.id, g,
            trueBook.Book());
        case Cancel =>
          var r := matcher.Cancel(a.id);
      }
    }

    // The earliest action that has arrived, if one has.
    method NextArrived(t: Nanos) returns (k: int)
      ensures k < |inflight|
      ensures k < 0 ==> forall j | 0 <= j < |inflight| :: inflight[j].arrive > t
      ensures k >= 0 ==> inflight[k].arrive <= t && forall j | 0 <= j < |inflight| :: NotLater(inflight[k], inflight[j])
    {
      k := -1;
      var best := -1;
      for i := 0 to |inflight|
        invariant best < i && (best < 0 <==> i == 0)
        invariant best >= 0 ==> forall j | 0 <= j < i :: NotLater(inflight[best], inflight[j])
      {
        if best < 0 || !NotLater(inflight[best], inflight[i]) {
          best := i;
        }
      }
      if best >= 0 && inflight[best].arrive <= t {
        k := best;
      }
    }

    // Every action that has arrived reaches the exchange, earliest first.
    method DrainActions(t: Nanos) returns (ghost landed: seq<Action>)
      requires Shape() && Recorded() && inventory == Position(matcher.log)
      modifies this`inflight, this`inventory, this`happened, matcher.Owned
      ensures Shape() && Recorded() && inventory == Position(matcher.log)
      ensures old(matcher.log) <= matcher.log && matcher.base == old(matcher.base)
      ensures happened == old(happened) + OursOf(landed, now)
      ensures LandsInTurn(old(inflight), t, landed, inflight) && forall a | a in inflight :: a.arrive > t
    {
      hide OrderBook.Valid, OrderBook.Book, OrderBook.Limits, MatchingEngine.Valid, Position, OrderMap.Valid,
           OrderMap.Contents, Acted, VenueAfter, LandsInTurn, NotLater, OursOf;
      landed := [];
      NoneLanded(inflight, t);
      OursNone(now);
      var k := NextArrived(t);
      while k >= 0
        invariant k < |inflight| && Shape() && Recorded() && inventory == Position(matcher.log)
        invariant old(matcher.log) <= matcher.log && matcher.base == old(matcher.base)
        invariant happened == old(happened) + OursOf(landed, now)
        invariant LandsInTurn(old(inflight), t, landed, inflight)
        invariant if k < 0 then forall j | 0 <= j < |inflight| :: inflight[j].arrive > t
                  else inflight[k].arrive <= t && forall j | 0 <= j < |inflight| :: NotLater(inflight[k], inflight[j])
        decreases |inflight|, k
      {
        var a := inflight[k];
        NextLands(old(inflight), t, landed, inflight, k);
        OursSnoc(landed, a, now);
        inflight, landed := Without(inflight, k), landed + [a];
        ApplyAction(a);
        k := NextArrived(t);
      }
    }

    // ---- the agent's side ----

    // An action is queued for its arrival, or lands at once without latency.
    method Send(a: Action)
      requires Valid()
      modifies this`inflight, this`inventory, this`happened, matcher.Owned
      ensures Valid()
      ensures if useLatency then happened == old(happened) && inflight == old(inflight) + [a]
              else happened == old(happened) + [Ours(a, Stamp(a, now))] && inflight == old(inflight)
    {
      hide OrderBook.Valid, OrderBook.Book, OrderBook.Limits, MatchingEngine.Valid, Position, Lags, OrderMap.Valid,
           OrderMap.Contents, VenueAfter, SeenAfter, SaidBy, Acted;
      Happens(Terms(), happened, Ours(a, Stamp(a, now)));
      if useLatency {
        inflight := inflight + [a];
      } else {
        ApplyAction(a);
      }
    }

    method NoteFillsRead(upto: nat)
      modifies this`agentRead
      ensures agentRead == upto
    {
      agentRead := upto;
    }

    // ---- one turn of the loop ----

    // A market order from elsewhere consumes the book; nothing of it is published yet.
    method TakeFromBook(e: BookEvent)
      requires Shape() && inventory == Position(matcher.log) && e.kind.Aggress?
      modifies this`inventory, matcher.Owned
      ensures Shape() && inventory == Position(matcher.log)
      ensures Venue() == Handled(old(Venue()), Terms(), e)
      ensures old(matcher.log) <= matcher.log && matcher.base == old(matcher.base)
    {
      hide OrderBook.Valid, OrderBook.Book, OrderBook.Limits, Position, IsFlat, Crossed, FillsOf, OrderMap.Valid,
           OrderMap.Contents, Taken, SweepOf;
      var before := |matcher.fills|;
      ghost var v := Venue();
      assert v.log[..matcher.base + before] == v.log;
      ghost var f := PriceTime(v.book, Opposite(e.side));
      var r;
      ghost var g;
      r, g := matcher.SubmitMarket(e.ts, e.orderId, e.side, e.qty, false, f);
      TakenIs(v, trueBook.Limits(), Incoming(e.side, None, false, matcher.rule), e.qty, e.ts, e.orderId, g,
        trueBook.Book());
      BookFills(before);
    }

    // Any other event goes to the exchange's book and is published as it is.
    method ApplyToBook(e: BookEvent)
      requires Shape() && Lagging() && !e.kind.Aggress?
      modifies this`pending, this`ops, trueBook.Owned, viewBook.Owned
      ensures Shape() && Lagging() && ops == old(ops) + [e]
      ensures Venue() == Handled(old(Venue()), Terms(), e)
    {
      hide OrderBook.Valid, OrderBook.Book, OrderBook.Limits, Apply, Lags, OrderMap.Valid, OrderMap.Contents;
      var r := trueBook.ApplyEvent(e);
      Deliver(e, now);
    }

    // The event reaches the matcher or the book; then it and every fill still unsaid
    // are published.
    method Handle(e: BookEvent)
      requires Shape() && Recorded() && Told() && Lagging() && Publishing() && inventory == Position(matcher.log)
      modifies this`inventory, this`pending, this`ops, this`fillsSeen, this`happened, matcher.Owned, viewBook.Owned
      ensures Shape() && Recorded() && Told() && Lagging() && Publishing() && inventory == Position(matcher.log)
      ensures happened == old(happened) + [Theirs(e)] && Venue() == Handled(old(Venue()), Terms(), e)
      ensures ops == old(ops) + Itself(e) + EchoesOf(From(matcher.log, old(fillsSeen)), e.seqNo)
      ensures fillsSeen == |matcher.log| && old(matcher.log) <= matcher.log
    {
      hide OrderBook.Valid, OrderBook.Book, OrderBook.Limits, MatchingEngine.Valid, Position, Lags, OrderMap.Valid,
           OrderMap.Contents, Apply, EchoesOf, VenueAfter, SeenAfter, SaidBy, Handled;
      Happens(Terms(), happened, Theirs(e));
      if e.kind.Aggress? {
        TakeFromBook(e);
      } else {
        ApplyToBook(e);
      }
      PublishNewFills(e.seqNo);
      happened := happened + [Theirs(e)];
    }

    // The loop body up to the agent's turn. Whatever the agent has reported as
    // read, only published fills leave the window.
    method Turn(e: BookEvent) returns (ghost landed: seq<Action>)
      requires Valid()
      modifies this, matcher.Owned, viewBook.Owned
      ensures Valid() && agentRead == old(agentRead) && now == e.ts && fillsSeen == |matcher.log|
      ensures LandsInTurn(old(inflight), e.ts, landed, inflight) && forall a | a in inflight :: a.arrive > e.ts
      ensures happened == old(happened) + OursOf(landed, e.ts) + [Theirs(e)]
    {
      hide OrderBook.Valid, OrderBook.Book, OrderBook.Limits, MatchingEngine.Valid, Position, Lags, OrderMap.Valid,
           OrderMap.Contents, VenueAfter, SeenAfter, SaidBy, Handled, LandsInTurn, OursOf;
      matcher.ConsumeThrough(Min(fillsSeen, agentRead));
      now := e.ts;
      landed := DrainActions(now);
      OursSaid(Terms(), old(happened), landed, now);
      DrainMarketData(now);
      Handle(e);
    }

    // A whole run with an agent that sends nothing, whatever it reports as read:
    // the events happen at the exchange and nothing else does, the view is always
    // the exchange's book after some prefix of what was published of them, and
    // without latency it is the exchange's book.
    method RunPassive(es: seq<BookEvent>)
      requires Valid() && Untouched()
      modifies this, matcher.Owned, viewBook.Owned
      ensures Valid() && Untouched()
      ensures happened == old(happened) + TheirsOf(es)
      ensures Venue() == VenueAfter(Terms(), happened) && ops == SaidBy(Terms(), happened)
      ensures ViewIsPast()
    {
      hide OrderBook.Valid, OrderBook.Book, OrderBook.Limits, MatchingEngine.Valid, Position, OrderMap.Valid,
           OrderMap.Contents, Lags, VenueAfter, SeenAfter, SaidBy, TheirsOf, LandsInTurn;
      ViewLags();
      TheirsSnoc(es, 0);
      for k := 0 to |es|
        invariant Valid() && Untouched() && ViewIsPast()
        invariant happened == old(happened) + TheirsOf(es[..k])
      {
        ghost var landed := Turn(es[k]);
        NothingToLand([], es[k].ts, landed, inflight);
        OursNone(es[k].ts);
        TheirsSnoc(es, k);
        var read: nat := *;
        NoteFillsRead(read);
        ViewLags();
      }
      assert es[..|es|] == es;
    }

    // After an event any agent sends what it likes, and says what it likes of how
    // far it has read.
    method AgentActs()
      requires Valid()
      modifies this`inflight, this`inventory, this`happened, this`agentRead, matcher.Owned
      ensures Valid() && MarketOf(happened) == MarketOf(old(happened))
    {
      hide Simulator.Valid, Simulator.Shape, MarketOf, OrderBook.Valid, OrderBook.Book, OrderBook.Limits,
           MatchingEngine.Valid, OrderMap.Valid, OrderMap.Contents, Acted, VenueAfter, SeenAfter, SaidBy;
      var more: bool := *;
      var budget: nat := *;
      while more && budget > 0
        invariant Valid() && MarketOf(happened) == MarketOf(old(happened))
      {
        var a: Action := *;
        MarketSnoc(happened, Ours(a, Stamp(a, now)));
        Send(a);
        budget := budget - 1;
        more := *;
      }
      var read: nat := *;
      Report(read);
    }

    method Report(read: nat)
      requires Valid()
      modifies this`agentRead
      ensures Valid() && agentRead == read
    {
      hide OrderBook.Valid, OrderBook.Book, OrderBook.Limits, MatchingEngine.Valid, Position, OrderMap.Valid,
           OrderMap.Contents, Lags, VenueAfter, SeenAfter, SaidBy;
      NoteFillsRead(read);
    }

    // A whole run with any agent; at the end what is still in flight lands. What
    // happened is all of the market's events, in order, and what the agent sent
    // in between; the exchange is where that puts it, and exactly what a feed says
    // of it has been published.
    method RunActive(es: seq<BookEvent>)
      requires Valid()
      modifies this, matcher.Owned, viewBook.Owned
      ensures Valid() && MarketOf(happened) == MarketOf(old(happened)) + es
      ensures Venue() == VenueAfter(Terms(), happened) && ops == SaidBy(Terms(), happened)
      ensures inventory == Position(VenueAfter(Terms(), happened).log) == Net(Terms(), happened)
      ensures forall a | a in inflight :: a.arrive > now + 10_000_000_000
    {
      hide OrderBook.Valid, OrderBook.Book, OrderBook.Limits, MatchingEngine.Valid, Position, OrderMap.Valid,
           OrderMap.Contents, Lags, VenueAfter, SeenAfter, SaidBy, MarketOf, LandsInTurn, OursOf;
      for k := 0 to |es|
        invariant Valid() && MarketOf(happened) == MarketOf(old(happened)) + es[..k]
      {
        ghost var hs := happened;
        ghost var landed := Turn(es[k]);
        MarketAfterTurn(hs, landed, es[k]);
        AgentActs();
      }
      ghost var hs := happened;
      ghost var landed := DrainActions(now + 10_000_000_000);
      OursSaid(Terms(), hs, landed, now);
      OursAreNoMarket(hs, landed, now);
      PositionIsNet(Terms(), happened);
    }

    ghost predicate ViewIsPast()
      requires Shape()
      reads this, matcher, matcher.Owned, viewBook.Owned
    {
      && (exists n: nat :: n <= |ops| && viewBook.Book() == Run(EMPTY_BOOK, viewBook.Limits(), ops[..n])
                           && trueBook.Book() == Run(viewBook.Book(), viewBook.Limits(), ops[n..]))
      && (!useLatency ==> viewBook.Book() == trueBook.Book())
    }

    lemma ViewLags()
      requires Valid() && Untouched()
      ensures ViewIsPast()
    {
      hide OrderBook.Valid, OrderBook.Book, OrderBook.Limits, MatchingEngine.Valid, Position, OrderMap.Valid,
           OrderMap.Contents, Apply, Run, VenueAfter, SeenAfter, SaidBy;
      var n := |ops| - |pending|;
      assert ops == ops[..n] + ops[n..];
      PassiveIsTruth(Terms(), happened);
      RunConcat(EMPTY_BOOK, viewBook.Limits(), ops[..n], ops[n..]);
      if !useLatency {
        NothingPending(viewBook.Book(), viewBook.Limits(), ops);
      }
    }
  }
}
