// What happens at the exchange, on values: how each market event and each of our
// own actions moves its book and its fill log, and what a public feed says of it.
module Venues {
  import opened Types
  import opened BookSpec
  import opened Flatten
  import opened MatchSpec
  import opened Matching

  datatype ActionType = Limit | Market | Cancel

  datatype Action = Action(decided: Nanos, arrive: Nanos, kind: ActionType, id: OrderId, side: Side, price: Ticks,
                           qty: Qty)

  // The book, and every fill ever made.
  datatype Venue = Venue(book: Book, log: seq<Fill>)

  // The exchange's fixed terms: its book's bounds and its self-match rule.
  datatype Terms = Terms(lim: Limits, rule: SelfMatch)

  // A market event, or one of our actions, stamped when it landed.
  datatype Happening = Theirs(e: BookEvent) | Ours(a: Action, at: Nanos)

  const OPENING := Venue(EMPTY_BOOK, [])

  // ---- what an order, an action or an event does ----

  ghost function SweepOf(b: Book, a: Incoming, qty: Qty): Sweep {
    Greedy(PriceTime(b, Opposite(a.side)), a, qty)
  }

  // An order takes what it can from the opposite side, in price-time order.
  ghost function Taken(v: Venue, lim: Limits, a: Incoming, qty: Qty, ts: Nanos, id: OrderId): Venue {
    if qty <= 0 then v
    else
      var hits := SweepOf(v.book, a, qty).hits;
      Venue(Run(v.book, lim, EventsOf(hits, Opposite(a.side))), v.log + FillsOf(hits, ts, id, Opposite(a.side), a.mine))
  }

  // A limit order takes what its price reaches, and what is left of it is offered
  // to the book.
  ghost function Offered(v: Venue, t: Terms, s: Side, price: Ticks, mine: bool, qty: Qty, ts: Nanos,
                         id: OrderId): Venue {
    var a := Incoming(s, Some(price), mine, t.rule);
    var v' := Taken(v, t.lim, a, qty, ts, id);
    var left := SweepOf(v.book, a, qty).remaining;
    if qty <= 0 || left <= 0 then v' else v'.(book := AddOp(v'.book, t.lim, id, s, price, left, mine).book)
  }

  ghost function Acted(v: Venue, t: Terms, a: Action, at: Nanos): Venue {
    match a.kind
    case Limit => Offered(v, t, a.side, a.price, true, a.qty, at, a.id)
    case Market => Taken(v, t.lim, Incoming(a.side, None, true, t.rule), a.qty, at, a.id)
    case Cancel => v.(book := RemoveOp(v.book, a.id).book)
  }

  ghost function Handled(v: Venue, t: Terms, e: BookEvent): Venue {
    if e.kind.Aggress? then Taken(v, t.lim, Incoming(e.side, None, false, t.rule), e.qty, e.ts, e.orderId)
    else v.(book := Apply(v.book, t.lim, e).book)
  }

  ghost function After(v: Venue, t: Terms, h: Happening): Venue {
    match h
    case Theirs(e) => Handled(v, t, e)
    case Ours(a, at) => Acted(v, t, a, at)
  }

  // The engine's sweep, where one was made, is the specified one.
  lemma TakenIs(v: Venue, lim: Limits, a: Incoming, qty: Qty, ts: Nanos, id: OrderId, g: Sweep, b: Book)
    requires qty > 0 ==> Crossed(Job(v.book, lim, PriceTime(v.book, Opposite(a.side)), a, qty, ts, id), g, b)
    ensures qty <= 0 ==> Taken(v, lim, a, qty, ts, id) == v
    ensures qty > 0 ==> g == SweepOf(v.book, a, qty)
                        && Taken(v, lim, a, qty, ts, id)
                           == Venue(b, v.log + FillsOf(g.hits, ts, id, Opposite(a.side), a.mine))
  {
  }

  // ---- our own position ----

  // What a fill does to our position: a resting order of ours trades on its own
  // side, an incoming one against the resting side, and others' trades nothing.
  function Signed(f: Fill): int {
    if !f.restingMine && !f.aggressorMine then 0
    else
      var ours := if f.restingMine then f.restingSide else Opposite(f.restingSide);
      if ours.Bid? then f.qty else -f.qty
  }

  function Position(fills: seq<Fill>): int {
    if fills == [] then 0 else Position(fills[..|fills| - 1]) + Signed(fills[|fills| - 1])
  }

  lemma PositionSnoc(fills: seq<Fill>, k: nat)
    requires k < |fills|
    ensures Position(fills[..k + 1]) == Position(fills[..k]) + Signed(fills[k])
  {
    assert fills[..k + 1][..k] == fills[..k];
  }

  // ---- what is published ----

  function Echo(f: Fill, seqNo: nat): BookEvent {
    BookEvent(f.ts, seqNo, f.restingId, 0, 0, f.qty, Execute, f.restingSide)
  }

  function EchoesOf(fills: seq<Fill>, seqNo: nat): seq<BookEvent> {
    seq(|fills|, k requires 0 <= k < |fills| => Echo(fills[k], seqNo))
  }

  lemma EchoesSnoc(log: seq<Fill>, from: nat, k: nat, seqNo: nat)
    requires from <= k <= |log|
    ensures from == k ==> EchoesOf(log[from..k], seqNo) == []
    ensures k < |log| ==> EchoesOf(log[from..k + 1], seqNo) == EchoesOf(log[from..k], seqNo) + [Echo(log[k], seqNo)]
  {
  }

  // A market order is never published itself, only the executions it caused.
  function Itself(e: BookEvent): seq<BookEvent> {
    if e.kind.Aggress? then [] else [e]
  }

  // ---- a whole day ----

  ghost function VenueAfter(t: Terms, hs: seq<Happening>): Venue {
    if hs == [] then OPENING else After(VenueAfter(t, hs[..|hs| - 1]), t, hs[|hs| - 1])
  }

  // How many fills have been published: every fill made by the last market event.
  ghost function SeenAfter(t: Terms, hs: seq<Happening>): nat {
    if hs == [] then 0
    else if hs[|hs| - 1].Theirs? then |VenueAfter(t, hs).log|
    else SeenAfter(t, hs[..|hs| - 1])
  }

  // Each market event, then every fill not yet published, whoever caused it.
  ghost function SaidBy(t: Terms, hs: seq<Happening>): seq<BookEvent> {
    if hs == [] then []
    else
      var before, h := hs[..|hs| - 1], hs[|hs| - 1];
      SaidBy(t, before) + (if h.Ours? then []
        else Itself(h.e) + EchoesOf(From(VenueAfter(t, hs).log, SeenAfter(t, before)), h.e.seqNo))
  }

  function From(log: seq<Fill>, n: nat): seq<Fill> {
    if n <= |log| then log[n..] else []
  }

  lemma Happens(t: Terms, hs: seq<Happening>, h: Happening)
    ensures VenueAfter(t, hs + [h]) == After(VenueAfter(t, hs), t, h)
    ensures SeenAfter(t, hs + [h]) == if h.Theirs? then |VenueAfter(t, hs + [h]).log| else SeenAfter(t, hs)
    ensures SaidBy(t, hs + [h])
         == SaidBy(t, hs) + (if h.Ours? then []
           else Itself(h.e) + EchoesOf(From(VenueAfter(t, hs + [h]).log, SeenAfter(t, hs)), h.e.seqNo))
  {
    hide After;
    assert (hs + [h])[..|hs|] == hs;
  }

  // Nothing is ever taken back from the log.
  lemma LogGrows(v: Venue, t: Terms, h: Happening)
    ensures v.log <= After(v, t, h).log
  {
    hide AddOp, RemoveOp, Apply;
  }

  // The fills behind the echoes published, in order.
  ghost function FillsSaid(t: Terms, hs: seq<Happening>): seq<Fill> {
    if hs == [] then []
    else
      var before, h := hs[..|hs| - 1], hs[|hs| - 1];
      FillsSaid(t, before) + (if h.Ours? then [] else From(VenueAfter(t, hs).log, SeenAfter(t, before)))
  }

  // Whatever we do in between, after a market event every fill ever made has been
  // published exactly once, in the order it was made.
  lemma {:induction false} EachFillSaidOnce(t: Terms, hs: seq<Happening>)
    ensures SeenAfter(t, hs) <= |VenueAfter(t, hs).log|
    ensures FillsSaid(t, hs) == VenueAfter(t, hs).log[..SeenAfter(t, hs)]
    ensures hs != [] && hs[|hs| - 1].Theirs? ==> FillsSaid(t, hs) == VenueAfter(t, hs).log
    decreases |hs|
  {
    hide After;
    if hs != [] {
      var before, h := hs[..|hs| - 1], hs[|hs| - 1];
      EachFillSaidOnce(t, before);
      LogGrows(VenueAfter(t, before), t, h);
    }
  }

  // ---- the feed is the truth when we have done nothing ----

  // Alike as far as a book can tell.
  predicate SameOp(e: BookEvent, e': BookEvent) {
    e.(ts := 0, seqNo := 0) == e'.(ts := 0, seqNo := 0)
  }

  predicate SameOps(es: seq<BookEvent>, es': seq<BookEvent>) {
    |es| == |es'| && forall k | 0 <= k < |es| :: SameOp(es[k], es'[k])
  }

  lemma {:induction false} SameOpsSameRun(b: Book, lim: Limits, es: seq<BookEvent>, es': seq<BookEvent>)
    requires SameOps(es, es')
    ensures Run(b, lim, es) == Run(b, lim, es')
    decreases |es|
  {
    if es != [] {
      assert SameOp(es[0], es'[0]);
      SameOpsSameRun(Apply(b, lim, es[0]).book, lim, es[1..], es'[1..]);
    }
  }

  lemma {:induction false} NoneDropped(f: Flat, a: Incoming, qty: Qty)
    requires !a.mine
    ensures forall h | h in Greedy(f, a, qty).hits :: h.Traded?
    decreases |f|
  {
    if qty > 0 && f != [] && Reaches(a, f[0].price) && qty >= f[0].e.qty {
      NoneDropped(f[1..], a, qty - f[0].e.qty);
    }
  }

  // When nothing was dropped, the published executions are the sweep's own steps.
  lemma {:induction false} EchoesAreSteps(hits: seq<Hit>, ts: Nanos, id: OrderId, s: Side, seqNo: nat)
    requires forall h | h in hits :: h.Traded?
    ensures SameOps(EventsOf(hits, s), EchoesOf(FillsOf(hits, ts, id, s, false), seqNo))
  {
    if hits != [] {
      EchoesAreSteps(hits[1..], ts, id, s, seqNo);
      var rest := FillsOf(hits[1..], ts, id, s, false);
      var fills := FillsOf(hits, ts, id, s, false);
      assert fills[1..] == rest;
      forall k | 0 <= k < |hits| ensures SameOp(EventsOf(hits, s)[k], EchoesOf(fills, seqNo)[k]) {
        if k > 0 {
          assert SameOp(EventsOf(hits[1..], s)[k - 1], EchoesOf(rest, seqNo)[k - 1]);
          assert hits[k] == hits[1..][k - 1] && fills[k] == rest[k - 1];
        }
      }
    }
  }

  // What is published of a market event, applied one by one to the book before it,
  // makes exactly the book after it.
  lemma PublishedIsTruth(v: Venue, t: Terms, e: BookEvent)
    ensures var v' := Handled(v, t, e);
            v'.book == Run(v.book, t.lim, Itself(e) + EchoesOf(From(v'.log, |v.log|), e.seqNo))
  {
    hide Run, Apply, Greedy, FillsOf, EchoesOf, EventsOf;
    var v' := Handled(v, t, e);
    var a := Incoming(e.side, None, false, t.rule);
    var s := Opposite(e.side);
    if !e.kind.Aggress? {
      NoFills(v.log, e.seqNo);
      assert Itself(e) + [] == [e];
      RunOne(v.book, t.lim, e);
    } else if e.qty > 0 {
      var hits, f := SweepOf(v.book, a, e.qty).hits, PriceTime(v.book, s);
      NoneDropped(f, a, e.qty);
      EchoesAreSteps(hits, e.ts, e.orderId, s, e.seqNo);
      var fills := FillsOf(hits, e.ts, e.orderId, s, false);
      SameOpsSameRun(v.book, t.lim, EventsOf(hits, s), EchoesOf(fills, e.seqNo));
      assert From(v.log + fills, |v.log|) == fills;
      assert Itself(e) + EchoesOf(fills, e.seqNo) == EchoesOf(fills, e.seqNo);
    } else {
      NoFills(v.log, e.seqNo);
      assert Itself(e) + [] == [];
      RunNone(v.book, t.lim);
    }
  }

  lemma NoFills(log: seq<Fill>, seqNo: nat)
    ensures EchoesOf(From(log, |log|), seqNo) == []
  {
  }

  // While we have sent nothing, the stream published makes exactly the venue's
  // book, and every fill has been published.
  lemma {:induction false} PassiveIsTruth(t: Terms, hs: seq<Happening>)
    requires forall h | h in hs :: h.Theirs?
    ensures VenueAfter(t, hs).book == Run(EMPTY_BOOK, t.lim, SaidBy(t, hs))
    ensures SeenAfter(t, hs) == |VenueAfter(t, hs).log|
    decreases |hs|
  {
    hide Run, Handled, Acted, EchoesOf;
    if hs == [] {
      RunNone(EMPTY_BOOK, t.lim);
    } else {
      var before, h := hs[..|hs| - 1], hs[|hs| - 1];
      assert hs == before + [h];
      PassiveIsTruth(t, before);
      PublishedIsTruth(VenueAfter(t, before), t, h.e);
      var said := Itself(h.e) + EchoesOf(From(VenueAfter(t, hs).log, SeenAfter(t, before)), h.e.seqNo);
      RunConcat(EMPTY_BOOK, t.lim, SaidBy(t, before), said);
    }
  }
}
