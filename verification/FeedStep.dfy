// What one order message leaves believed of its order, the events that make a book
// agree, and that they do.
module FeedStep {
  import opened Types
  import opened BookSpec
  import opened BookRuns
  import opened FeedSpec

  // ---- beliefs and events ----

  // A price newly named: held outside the band, held as marketable, or resting.
  function Decided(cfg: Config, m: Msg, crosses: bool): OrderState {
    OrderState(m.amount, m.price, m.side, !InBand(cfg, m.price), InBand(cfg, m.price) && crosses)
  }

  // Size this message traded, as far as it was there to trade.
  function TradedFrom(st: OrderState, m: Msg): Qty {
    if m.traded.None? then 0 else Max(0, Min(Max(0, m.traded.value), st.remaining))
  }

  function Left(st: OrderState, m: Msg): OrderState {
    st.(remaining := st.remaining - TradedFrom(st, m))
  }

  // More size takes the side the message names, which a good feed never changes.
  function Resized(st: OrderState, m: Msg): OrderState {
    if m.amount > st.remaining then st.(remaining := m.amount, side := m.side) else st.(remaining := m.amount)
  }

  function AfterChange(cfg: Config, st: OrderState, m: Msg, crosses: bool): OrderState {
    if st.suppressed then st
    else if st.pending then
      if m.amount <= 0 || crosses then OrderState(m.amount, m.price, m.side, false, true) else Decided(cfg, m, false)
    else if m.price != st.price then Decided(cfg, m, crosses)
    else Resized(Left(st, m), m)
  }

  function Forgotten(live: LiveMap, id: OrderId): LiveMap {
    map i | i in live && i != id :: live[i]
  }

  // Every order's belief after a message; `crosses` is whether its price crosses
  // the book.
  function Successor(cfg: Config, live: LiveMap, m: Msg, crosses: bool): LiveMap {
    match m.kind
    case Created => live[m.id := Decided(cfg, m, crosses)]
    case Changed => if m.id in live then live[m.id := AfterChange(cfg, live[m.id], m, crosses)] else live
    case Deleted => Forgotten(live, m.id)
  }

  // The n-th event of a session.
  function Event(ts: Nanos, n: nat, m: Msg, kind: EventType, s: Side, price: Ticks, qty: Qty): BookEvent {
    BookEvent(ts, n, m.id, 0, price, qty, kind, s)
  }

  function RestEvents(st: OrderState, m: Msg, ts: Nanos, n: nat): seq<BookEvent> {
    if st.suppressed || st.pending then [] else [Event(ts, n + 1, m, Add, m.side, m.price, m.amount)]
  }

  function FillEvents(st: OrderState, m: Msg, ts: Nanos, n: nat): seq<BookEvent> {
    if TradedFrom(st, m) > 0 then [Event(ts, n + 1, m, Execute, st.side, st.price, TradedFrom(st, m))] else []
  }

  function DeleteEvents(st: OrderState, m: Msg, ts: Nanos, n: nat): seq<BookEvent> {
    if st.remaining > 0 then [Event(ts, n + 1, m, Delete, st.side, st.price, st.remaining)] else []
  }

  function RepriceEvents(cfg: Config, st: OrderState, m: Msg, crosses: bool, ts: Nanos, n: nat): seq<BookEvent> {
    [Event(ts, n + 1, m, Delete, st.side, st.price, st.remaining)] + RestEvents(Decided(cfg, m, crosses), m, ts, n + 1)
  }

  // Less size is a reduction; more is a delete and an add, which loses the place.
  function ResizeEvents(st: OrderState, m: Msg, ts: Nanos, n: nat): seq<BookEvent> {
    if m.amount < st.remaining then [Event(ts, n + 1, m, Reduce, st.side, st.price, st.remaining - m.amount)]
    else if m.amount > st.remaining then
      [Event(ts, n + 1, m, Delete, st.side, st.price, st.remaining),
        Event(ts, n + 2, m, Add, m.side, m.price, m.amount)]
    else []
  }

  // What is left of a resting order after the part that traded.
  function LeftEvents(cfg: Config, st: OrderState, m: Msg, crosses: bool, ts: Nanos, n: nat): seq<BookEvent> {
    if m.kind.Deleted? then DeleteEvents(st, m, ts, n)
    else if m.price != st.price then RepriceEvents(cfg, st, m, crosses, ts, n)
    else ResizeEvents(st, m, ts, n)
  }

  // The events of one message, after n earlier ones.
  function MessageEvents(cfg: Config, live: LiveMap, m: Msg, crosses: bool, ts: Nanos, n: nat): seq<BookEvent> {
    if m.kind.Created? then RestEvents(Decided(cfg, m, crosses), m, ts, n)
    else if m.id !in live || live[m.id].suppressed then []
    else
      var st := live[m.id];
      if st.pending then
        if m.kind.Deleted? then [] else RestEvents(AfterChange(cfg, st, m, crosses), m, ts, n)
      else FillEvents(st, m, ts, n) + LeftEvents(cfg, Left(st, m), m, crosses, ts, n + |FillEvents(st, m, ts, n)|)
  }

  function FillOf(live: LiveMap, m: Msg): Qty {
    if m.kind.Created? || !Tracked(live, m.id) then 0 else TradedFrom(live[m.id], m)
  }

  function ExecutedIn(es: seq<BookEvent>): Qty {
    if es == [] then 0 else ExecutedIn(es[..|es| - 1]) + if es[|es| - 1].kind.Execute? then es[|es| - 1].qty else 0
  }

  lemma ExecutedSnoc(es: seq<BookEvent>, e: BookEvent)
    ensures ExecutedIn(es + [e]) == ExecutedIn(es) + if e.kind.Execute? then e.qty else 0
  {
    assert (es + [e])[..|es|] == es;
  }

  // ---- step is kept ----

  lemma InStepStands(live: LiveMap, b: Book, id: OrderId)
    requires Lockstep(live, b)
    ensures StandingIn(b, id) == BelievedIn(live, id) && (id in live ==> live[id].remaining >= 0)
  {
    assert InStep(live, b, id);
  }

  // Growing in place at one's own price crosses nothing, unless the order had
  // already emptied and the book has moved through the price.
  lemma GrowthIsSafe(cfg: Config, live: LiveMap, m: Msg, t: BookTouch, b: Book, lim: Limits)
    requires Aligned(cfg, live, t, b, lim) && WellFed(live, m)
    requires Tracked(live, m.id) && m.price == live[m.id].price && m.kind.Changed? && m.amount > 0
    ensures !Regrows(live, m, t) ==> !Crossing(b, m.side, m.price)
  {
    hide WellFormed, TouchIs, Crossing, StandingIn, Lockstep;
    InStepStands(live, b, m.id);
    MarketableCrosses(t, b, m.side, m.price);
    var st := live[m.id];
    if st.remaining > 0 {
      OwnPriceIsSafe(b, m.id, Loc(st.side, st.price), st.remaining);
    }
  }

  // The successor differs from the belief before only in the message's own order.
  lemma SuccessorDiffers(cfg: Config, live: LiveMap, m: Msg, crosses: bool)
    ensures DiffersAt(live, Successor(cfg, live, m, crosses), m.id)
  {
    hide AfterChange, Decided;
  }

  // There is a slot for the message's order, if it is to rest.
  ghost predicate HasSlot(cfg: Config, live: LiveMap, m: Msg, t: BookTouch, b: Book, lim: Limits) {
    BelievedIn(Successor(cfg, live, m, Marketable(m.side, m.price, t)), m.id).Rests? ==> Room(b, lim, m.id)
  }

  // An order not in the book, its price newly decided: its event lands it as decided.
  lemma DecidedLands(cfg: Config, live: LiveMap, m: Msg, t: BookTouch, b: Book, lim: Limits,
                     es: seq<BookEvent>, ts: Nanos, n: nat)
    requires Track(b, lim, es, m.id, Absent)
    requires Aligned(cfg, live, t, b, lim) && m.amount >= 0
    requires Believed(Decided(cfg, m, Marketable(m.side, m.price, t))).Rests? ==> Room(b, lim, m.id)
    ensures var st := Decided(cfg, m, Marketable(m.side, m.price, t));
            Landed(b, lim, es + RestEvents(st, m, ts, n), m.id, Believed(st))
  {
    hide WellFormed, Run, TouchIs, Crossing, Lockstep, StandingIn, Track, Landed, Room, Marketable;
    var st := Decided(cfg, m, Marketable(m.side, m.price, t));
    if st.suppressed || st.pending {
      assert es + [] == es;
      TrackLands(b, lim, es, m.id, Absent);
    } else {
      MarketableCrosses(t, b, m.side, m.price);
      TrackAdd(b, lim, es, m.id, RestEvents(st, m, ts, n)[0]);
    }
  }

  lemma CreatedFollows(cfg: Config, live: LiveMap, m: Msg, t: BookTouch, b: Book, lim: Limits, ts: Nanos, n: nat)
    requires Aligned(cfg, live, t, b, lim) && WellFed(live, m) && HasSlot(cfg, live, m, t, b, lim) && m.kind.Created?
    ensures var crosses := Marketable(m.side, m.price, t);
            Follows(b, lim, MessageEvents(cfg, live, m, crosses, ts, n), Successor(cfg, live, m, crosses))
  {
    hide WellFormed, Run, TouchIs, Lockstep, StandingIn, Track, Landed, Follows, Room, Marketable, DiffersAt;
    var crosses := Marketable(m.side, m.price, t);
    var st := Decided(cfg, m, crosses);
    InStepStands(live, b, m.id);
    TrackStart(b, lim, m.id, Absent);
    DecidedLands(cfg, live, m, t, b, lim, [], ts, n);
    assert [] + RestEvents(st, m, ts, n) == RestEvents(st, m, ts, n);
    SuccessorDiffers(cfg, live, m, crosses);
    LandedFollows(b, lim, RestEvents(st, m, ts, n), m.id, live, Successor(cfg, live, m, crosses));
  }

  // Messages about an order that is not in the book and stays out of it.
  lemma AbsentFollows(cfg: Config, live: LiveMap, m: Msg, t: BookTouch, b: Book, lim: Limits)
    requires Aligned(cfg, live, t, b, lim) && WellFed(live, m)
    requires var live' := Successor(cfg, live, m, Marketable(m.side, m.price, t));
             BelievedIn(live, m.id) == BelievedIn(live', m.id) == Absent
               && (m.id in live' ==> live'[m.id].remaining >= 0)
    ensures Follows(b, lim, [], Successor(cfg, live, m, Marketable(m.side, m.price, t)))
  {
    hide WellFormed, Run, TouchIs, Lockstep, StandingIn, Track, Landed, Follows, Marketable, DiffersAt, Successor,
         BelievedIn;
    var live' := Successor(cfg, live, m, Marketable(m.side, m.price, t));
    InStepStands(live, b, m.id);
    TrackStart(b, lim, m.id, Absent);
    TrackLands(b, lim, [], m.id, Absent);
    SuccessorDiffers(cfg, live, m, Marketable(m.side, m.price, t));
    LandedFollows(b, lim, [], m.id, live, live');
  }

  // An order held as marketable rests once its price no longer crosses.
  lemma PendingFollows(cfg: Config, live: LiveMap, m: Msg, t: BookTouch, b: Book, lim: Limits, ts: Nanos, n: nat)
    requires Aligned(cfg, live, t, b, lim) && WellFed(live, m) && HasSlot(cfg, live, m, t, b, lim)
    requires !m.kind.Created? && m.id in live && live[m.id].pending && !live[m.id].suppressed
    ensures var crosses := Marketable(m.side, m.price, t);
            Follows(b, lim, MessageEvents(cfg, live, m, crosses, ts, n), Successor(cfg, live, m, crosses))
  {
    hide WellFormed, Run, TouchIs, Lockstep, StandingIn, Track, Landed, Follows, Room, Marketable, DiffersAt;
    var crosses := Marketable(m.side, m.price, t);
    if m.kind.Deleted? || m.amount <= 0 || crosses {
      AbsentFollows(cfg, live, m, t, b, lim);
    } else {
      var st := Decided(cfg, m, crosses);
      InStepStands(live, b, m.id);
      TrackStart(b, lim, m.id, Absent);
      DecidedLands(cfg, live, m, t, b, lim, [], ts, n);
      assert [] + RestEvents(st, m, ts, n) == RestEvents(st, m, ts, n);
      SuccessorDiffers(cfg, live, m, crosses);
      LandedFollows(b, lim, RestEvents(st, m, ts, n), m.id, live, Successor(cfg, live, m, crosses));
    }
  }

  // The part that traded.
  lemma FillTracks(b: Book, lim: Limits, m: Msg, st: OrderState, ts: Nanos, n: nat)
    requires WellFormed(b) && StandingIn(b, m.id) == Believed(st) && !st.pending && !st.suppressed
    ensures Track(b, lim, FillEvents(st, m, ts, n), m.id, Believed(Left(st, m)))
  {
    hide WellFormed, StandingIn, Track;
    TrackStart(b, lim, m.id, Believed(st));
    if TradedFrom(st, m) > 0 {
      var e := FillEvents(st, m, ts, n)[0];
      assert [] + [e] == FillEvents(st, m, ts, n);
      TrackCut(b, lim, [], m.id, Loc(st.side, st.price), st.remaining, e);
    }
  }

  lemma DeleteTracks(b: Book, lim: Limits, m: Msg, st: OrderState, es: seq<BookEvent>, ts: Nanos, n: nat)
    requires Track(b, lim, es, m.id, Believed(st)) && !st.pending && !st.suppressed && st.remaining >= 0
    ensures Landed(b, lim, es + DeleteEvents(st, m, ts, n), m.id, Absent)
  {
    hide Track, Landed;
    if st.remaining > 0 {
      TrackDelete(b, lim, es, m.id, Believed(st), DeleteEvents(st, m, ts, n)[0]);
    } else {
      assert es + [] == es;
    }
    TrackLands(b, lim, es + DeleteEvents(st, m, ts, n), m.id, Absent);
  }

  lemma RepriceLands(cfg: Config, live: LiveMap, m: Msg, t: BookTouch, b: Book, lim: Limits, st: OrderState,
                     es: seq<BookEvent>, ts: Nanos, n: nat)
    requires Aligned(cfg, live, t, b, lim) && WellFed(live, m) && m.id in live
    requires Believed(Decided(cfg, m, Marketable(m.side, m.price, t))).Rests? ==> Room(b, lim, m.id)
    requires Track(b, lim, es, m.id, Believed(st))
    ensures var crosses := Marketable(m.side, m.price, t);
            Landed(b, lim, es + RepriceEvents(cfg, st, m, crosses, ts, n), m.id, Believed(Decided(cfg, m, crosses)))
  {
    hide Aligned, Track, Landed, Marketable, Believed;
    var crosses := Marketable(m.side, m.price, t);
    var e := Event(ts, n + 1, m, Delete, st.side, st.price, st.remaining);
    var rest := RestEvents(Decided(cfg, m, crosses), m, ts, n + 1);
    TrackDelete(b, lim, es, m.id, Believed(st), e);
    DecidedLands(cfg, live, m, t, b, lim, es + [e], ts, n + 1);
    assert (es + [e]) + rest == es + ([e] + rest);
  }

  lemma ResizeLands(b: Book, lim: Limits, m: Msg, st: OrderState, es: seq<BookEvent>, ts: Nanos, n: nat)
    requires Track(b, lim, es, m.id, Believed(st)) && !st.pending && !st.suppressed && m.amount >= 0
    requires m.price == st.price && m.side == st.side
    requires m.amount > st.remaining ==> !Crossing(b, m.side, m.price) && InWindow(lim, m.price) && Room(b, lim, m.id)
    ensures Landed(b, lim, es + ResizeEvents(st, m, ts, n), m.id, Believed(Resized(st, m)))
  {
    hide Track, Landed, Crossing, Room;
    var ev := ResizeEvents(st, m, ts, n);
    if m.amount < st.remaining {
      TrackCut(b, lim, es, m.id, Loc(st.side, st.price), st.remaining, ev[0]);
      TrackLands(b, lim, es + ev, m.id, Believed(Resized(st, m)));
    } else if m.amount > st.remaining {
      TrackDelete(b, lim, es, m.id, Believed(st), ev[0]);
      TrackAdd(b, lim, es + [ev[0]], m.id, ev[1]);
      assert (es + [ev[0]]) + [ev[1]] == es + ev;
    } else {
      assert es + [] == es;
      TrackLands(b, lim, es, m.id, Believed(st));
    }
  }

  // A change or delete of an order that rests, or has just been emptied.
  lemma RestingLands(cfg: Config, live: LiveMap, m: Msg, t: BookTouch, b: Book, lim: Limits, ts: Nanos, n: nat)
    requires Aligned(cfg, live, t, b, lim) && WellFed(live, m) && !m.kind.Created? && Tracked(live, m.id)
    requires InBand(cfg, live[m.id].price) && !Regrows(live, m, t) && HasSlot(cfg, live, m, t, b, lim)
    ensures var crosses := Marketable(m.side, m.price, t);
            Landed(b, lim, MessageEvents(cfg, live, m, crosses, ts, n), m.id,
                   BelievedIn(Successor(cfg, live, m, crosses), m.id))
  {
    hide WellFormed, Run, TouchIs, Lockstep, StandingIn, Track, Landed, Room, Marketable, Crossing, Regrows, Decided,
         FillEvents, DeleteEvents, RepriceEvents, ResizeEvents;
    var crosses, st := Marketable(m.side, m.price, t), live[m.id];
    var f, left := FillEvents(st, m, ts, n), Left(st, m);
    InStepStands(live, b, m.id);
    FillTracks(b, lim, m, st, ts, n);
    if m.kind.Deleted? {
      DeleteTracks(b, lim, m, left, f, ts, n + |f|);
    } else if m.price != st.price {
      RepriceLands(cfg, live, m, t, b, lim, left, f, ts, n + |f|);
    } else {
      if m.amount > left.remaining {
        GrowthIsSafe(cfg, live, m, t, b, lim);
      }
      ResizeLands(b, lim, m, left, f, ts, n + |f|);
    }
  }

  lemma RestingFollows(cfg: Config, live: LiveMap, m: Msg, t: BookTouch, b: Book, lim: Limits, ts: Nanos, n: nat)
    requires Aligned(cfg, live, t, b, lim) && WellFed(live, m) && !m.kind.Created? && Tracked(live, m.id)
    requires InBand(cfg, live[m.id].price) && !Regrows(live, m, t) && HasSlot(cfg, live, m, t, b, lim)
    ensures var crosses := Marketable(m.side, m.price, t);
            Follows(b, lim, MessageEvents(cfg, live, m, crosses, ts, n), Successor(cfg, live, m, crosses))
  {
    hide WellFormed, Run, TouchIs, Lockstep, StandingIn, Landed, Follows, Room, Marketable, DiffersAt, Regrows,
         MessageEvents;
    var crosses := Marketable(m.side, m.price, t);
    InStepStands(live, b, m.id);
    RestingLands(cfg, live, m, t, b, lim, ts, n);
    SuccessorDiffers(cfg, live, m, crosses);
    LandedFollows(b, lim, MessageEvents(cfg, live, m, crosses, ts, n), m.id, live, Successor(cfg, live, m, crosses));
  }

  // The regrowth case: nothing is filled, the delete and the add are both refused,
  // and the order is believed to rest.
  lemma RegrowthBreaks(cfg: Config, live: LiveMap, m: Msg, t: BookTouch, b: Book, lim: Limits, ts: Nanos, n: nat)
    requires Aligned(cfg, live, t, b, lim) && WellFed(live, m) && Regrows(live, m, t) && InBand(cfg, m.price)
    ensures var crosses := Marketable(m.side, m.price, t);
            var es, live' := MessageEvents(cfg, live, m, crosses, ts, n), Successor(cfg, live, m, crosses);
            !AddsAccepted(b, lim, es) && !Lockstep(live', Run(b, lim, es))
  {
    hide WellFormed, Run, TouchIs, Lockstep, StandingIn, Room, AddsAccepted, Crossing;
    var crosses, st := Marketable(m.side, m.price, t), live[m.id];
    var es := MessageEvents(cfg, live, m, crosses, ts, n);
    InStepStands(live, b, m.id);
    MarketableCrosses(t, b, m.side, m.price);
    assert FillEvents(st, m, ts, n) == [];
    assert es == ResizeEvents(st, m, ts, n) && es == [es[0], es[1]];
    RegrowthFails(b, lim, Successor(cfg, live, m, crosses), es[0], es[1]);
  }

  // No slot is left for an order that is to rest: whatever the events, the book ends
  // without room for all that is believed.
  lemma FullBreaks(live: LiveMap, live': LiveMap, id: OrderId, b: Book, lim: Limits, es: seq<BookEvent>)
    requires Lockstep(live, b) && DiffersAt(live, live', id) && BelievedIn(live', id).Rests?
    requires lim.Limited? && |b.index| <= lim.capacity && !Room(b, lim, id)
    ensures !Lockstep(live', Run(b, lim, es))
  {
    hide Run, BelievedIn;
    var b' := Run(b, lim, es);
    RunKeepsCapacity(b, lim, es);
    var others := b.index.Keys - {id};
    assert |others + {id}| == |others| + 1;
    assert |b'.index| == |b'.index.Keys|;
    var i := OneOutside(others + {id}, b'.index.Keys);
    if i != id {
      InStepStands(live, b, i);
    }
    assert !InStep(live', b', i);
  }

  lemma {:induction false} OneOutside(x: set<OrderId>, y: set<OrderId>) returns (i: OrderId)
    requires |x| > |y|
    ensures i in x && i !in y
    decreases |x|
  {
    i :| i in x;
    if i in y {
      i := OneOutside(x - {i}, y - {i});
    }
  }

  // For every message: in step before, belief and book are in step after, and every
  // add with a size is accepted, if and only if there is a slot for the order, where
  // it is to rest, and the regrowth case does not occur.
  lemma MessageKeepsStep(cfg: Config, live: LiveMap, m: Msg, t: BookTouch, b: Book, lim: Limits, ts: Nanos, n: nat)
    requires Aligned(cfg, live, t, b, lim) && WellFed(live, m) && Banded(cfg, live) && |b.index| <= lim.capacity
    ensures var crosses := Marketable(m.side, m.price, t);
            var es, live' := MessageEvents(cfg, live, m, crosses, ts, n), Successor(cfg, live, m, crosses);
            if Regrows(live, m, t) then !AddsAccepted(b, lim, es) && !Lockstep(live', Run(b, lim, es))
            else if HasSlot(cfg, live, m, t, b, lim) then Follows(b, lim, es, live')
            else !Lockstep(live', Run(b, lim, es))
  {
    hide Follows, Lockstep, AddsAccepted, Run, Marketable, WellFormed, TouchIs, Room, DiffersAt;
    var crosses := Marketable(m.side, m.price, t);
    if !Regrows(live, m, t) && !HasSlot(cfg, live, m, t, b, lim) {
      SuccessorDiffers(cfg, live, m, crosses);
      FullBreaks(live, Successor(cfg, live, m, crosses), m.id, b, lim, MessageEvents(cfg, live, m, crosses, ts, n));
    } else if m.kind.Created? {
      CreatedFollows(cfg, live, m, t, b, lim, ts, n);
    } else if m.id !in live || live[m.id].suppressed {
      StillStep(cfg, live, m, t, b, lim);
      AbsentFollows(cfg, live, m, t, b, lim);
    } else if live[m.id].pending {
      PendingFollows(cfg, live, m, t, b, lim, ts, n);
    } else if Regrows(live, m, t) {
      RegrowthBreaks(cfg, live, m, t, b, lim, ts, n);
    } else {
      RestingFollows(cfg, live, m, t, b, lim, ts, n);
    }
  }

  lemma StillStep(cfg: Config, live: LiveMap, m: Msg, t: BookTouch, b: Book, lim: Limits)
    requires Aligned(cfg, live, t, b, lim) && !m.kind.Created? && (m.id in live ==> live[m.id].suppressed)
    ensures m.id in live ==> live[m.id].remaining >= 0
  {
    hide WellFormed, TouchIs, Room;
    InStepStands(live, b, m.id);
  }

  // ---- what the events are ----

  // At most three, numbered on from the last; what executes is what traded.
  lemma EventsShape(cfg: Config, live: LiveMap, m: Msg, crosses: bool, ts: Nanos, n: nat)
    ensures var es := MessageEvents(cfg, live, m, crosses, ts, n);
            |es| <= 3 && Numbered(es, n) && ExecutedIn(es) == FillOf(live, m)
  {
    hide ExecutedIn, AfterChange;
    var es := MessageEvents(cfg, live, m, crosses, ts, n);
    if !m.kind.Created? && Tracked(live, m.id) {
      var st := live[m.id];
      var f := FillEvents(st, m, ts, n);
      var rest := LeftEvents(cfg, Left(st, m), m, crosses, ts, n + |f|);
      OnlyFillsExecute(f, st, m, ts, n);
      OthersExecuteNothing(f, rest);
    } else {
      assert [] + es == es;
      OthersExecuteNothing([], es);
    }
  }

  lemma OnlyFillsExecute(f: seq<BookEvent>, st: OrderState, m: Msg, ts: Nanos, n: nat)
    requires f == FillEvents(st, m, ts, n)
    ensures ExecutedIn(f) == TradedFrom(st, m)
  {
    if f != [] {
      assert [] + [f[0]] == f;
      ExecutedSnoc([], f[0]);
    }
  }

  lemma {:induction false} OthersExecuteNothing(f: seq<BookEvent>, rest: seq<BookEvent>)
    requires forall e | e in rest :: !e.kind.Execute?
    ensures ExecutedIn(f + rest) == ExecutedIn(f) && ExecutedIn([]) == 0
    decreases |rest|
  {
    if rest == [] {
      assert f + rest == f;
    } else {
      var k := |rest| - 1;
      OthersExecuteNothing(f, rest[..k]);
      assert f + rest == (f + rest[..k]) + [rest[k]];
      ExecutedSnoc(f + rest[..k], rest[k]);
    }
  }

  predicate Numbered(es: seq<BookEvent>, n: int) {
    forall k | 0 <= k < |es| :: es[k].seqNo == n + k + 1
  }

  // Orders that may rest stay inside the band.
  lemma StaysBanded(cfg: Config, live: LiveMap, m: Msg, crosses: bool)
    requires Banded(cfg, live)
    ensures Banded(cfg, Successor(cfg, live, m, crosses))
  {
  }

  // ---- what a message means for the book ----

  // Where an order stands once the message is dealt with: resting as the message says
  // if it is open, in the band, with a size, and does not cross, or rested there
  // already; an order once held outside the band stays out.
  function RestsAfter(cfg: Config, live: LiveMap, m: Msg, crosses: bool): Standing {
    var rested := Tracked(live, m.id) && live[m.id].price == m.price;
    if m.kind.Deleted? || (m.kind.Changed? && (m.id !in live || live[m.id].suppressed)) then Absent
    else if m.amount == 0 || !InBand(cfg, m.price) || (crosses && !rested) then Absent
    else Rests(Loc(m.side, m.price), m.amount)
  }

  lemma SuccessorRests(cfg: Config, live: LiveMap, m: Msg, crosses: bool)
    requires WellFed(live, m) && Banded(cfg, live)
    ensures BelievedIn(Successor(cfg, live, m, crosses), m.id) == RestsAfter(cfg, live, m, crosses)
  {
  }

  lemma BandIsWindow(cfg: Config, live: LiveMap, t: BookTouch, b: Book, lim: Limits, p: Ticks)
    requires Aligned(cfg, live, t, b, lim)
    ensures InBand(cfg, p) <==> InWindow(lim, p)
  {
    hide WellFormed, Lockstep, TouchIs;
  }

  // Where step is kept, the events leave the book with the order standing so and every
  // other order as it was, and no add is refused.
  lemma MessageMoves(cfg: Config, live: LiveMap, m: Msg, t: BookTouch, b: Book, lim: Limits, ts: Nanos, n: nat)
    requires Aligned(cfg, live, t, b, lim) && WellFed(live, m) && Banded(cfg, live) && |b.index| <= lim.capacity
    requires !Regrows(live, m, t) && HasSlot(cfg, live, m, t, b, lim)
    ensures var crosses := Crossing(b, m.side, m.price);
            var es := MessageEvents(cfg, live, m, crosses, ts, n);
            && AddsAccepted(b, lim, es) && OnlyOrder(b, Run(b, lim, es), m.id)
            && StandingIn(Run(b, lim, es), m.id) == RestsAfter(cfg, live, m, crosses)
  {
    hide Aligned, WellFed, Regrows, HasSlot, MessageEvents, Successor, Crossing, RestsAfter, Marketable, Run,
         AddsAccepted, Banded, BelievedIn, StandingIn, WellFormed, Lockstep;
    var es := MessageEvents(cfg, live, m, Marketable(m.side, m.price, t), ts, n);
    var live' := Successor(cfg, live, m, Marketable(m.side, m.price, t));
    AlignedTouch(cfg, live, t, b, lim);
    MarketableCrosses(t, b, m.side, m.price);
    MessageKeepsStep(cfg, live, m, t, b, lim, ts, n);
    SuccessorRests(cfg, live, m, Marketable(m.side, m.price, t));
    SuccessorDiffers(cfg, live, m, Marketable(m.side, m.price, t));
    InStepStands(live', Run(b, lim, es), m.id);
    forall i | i != m.id ensures StandingIn(Run(b, lim, es), i) == StandingIn(b, i) {
      InStepStands(live', Run(b, lim, es), i);
      InStepStands(live, b, i);
    }
  }

  lemma AlignedTouch(cfg: Config, live: LiveMap, t: BookTouch, b: Book, lim: Limits)
    requires Aligned(cfg, live, t, b, lim)
    ensures TouchIs(t, b) && Lockstep(live, b)
  {
  }

  // Every event is about the message's order at the message's time: an add as the
  // message says, anything else where the order was believed to rest.
  predicate EventFits(live: LiveMap, m: Msg, ts: Nanos, e: BookEvent) {
    && e.orderId == m.id && e.ts == ts
    && (e.kind.Add? || e.kind.Execute? || e.kind.Reduce? || e.kind.Delete?)
    && if e.kind.Add? then e.side == m.side && e.price == m.price && e.qty == m.amount
       else Tracked(live, m.id) && e.side == live[m.id].side && e.price == live[m.id].price && e.qty >= 0
  }

  // Size added, less size taken.
  function Added(es: seq<BookEvent>): int {
    if es == [] then 0
    else
      Added(es[..|es| - 1]) + if es[|es| - 1].kind.Add? then es[|es| - 1].qty else -es[|es| - 1].qty
  }

  lemma {:induction false} AddedConcat(es: seq<BookEvent>, es': seq<BookEvent>)
    ensures Added(es + es') == Added(es) + Added(es')
    decreases |es'|
  {
    if es' == [] {
      assert es + es' == es;
    } else {
      assert (es + es')[..|es + es'| - 1] == es + es'[..|es'| - 1];
      AddedConcat(es, es'[..|es'| - 1]);
    }
  }

  lemma AddedFew(e: BookEvent, e': BookEvent)
    ensures Added([]) == 0 && Added([e]) == (if e.kind.Add? then e.qty else -e.qty)
    ensures Added([e, e']) == Added([e]) + Added([e'])
  {
    assert [e][..0] == [] && [e'][..0] == [] && [e, e'][..1] == [e];
  }

  function SizeOf(st: Standing): Qty {
    if st.Rests? then st.qty else 0
  }

  lemma RestAccounts(st: OrderState, m: Msg, ts: Nanos, n: nat)
    requires st.remaining == m.amount
    ensures Added(RestEvents(st, m, ts, n)) == SizeOf(Believed(st))
  {
    hide Added;
    AddedNone();
    AddedShort(RestEvents(st, m, ts, n));
  }

  lemma FillAccounts(st: OrderState, m: Msg, ts: Nanos, n: nat)
    ensures Added(FillEvents(st, m, ts, n)) == -TradedFrom(st, m)
  {
    hide Added, TradedFrom;
    AddedNone();
    AddedShort(FillEvents(st, m, ts, n));
    assert TradedFrom(st, m) >= 0 by { TradedIsSize(st, m); }
  }

  lemma TradedIsSize(st: OrderState, m: Msg)
    ensures TradedFrom(st, m) >= 0 && (st.remaining >= 0 ==> TradedFrom(st, m) <= st.remaining)
  {
  }

  lemma LeftAccounts(cfg: Config, st: OrderState, m: Msg, crosses: bool, ts: Nanos, n: nat)
    requires st.remaining >= 0 && m.amount >= 0 && !st.pending && !st.suppressed && !m.kind.Created?
    ensures Added(LeftEvents(cfg, st, m, crosses, ts, n))
            == (if m.kind.Deleted? then 0
                else if m.price != st.price then SizeOf(Believed(Decided(cfg, m, crosses)))
                else SizeOf(Believed(Resized(st, m)))) - st.remaining
  {
    hide Added;
    AddedNone();
    if m.kind.Deleted? {
      AddedShort(DeleteEvents(st, m, ts, n));
    } else if m.price != st.price {
      var e := Event(ts, n + 1, m, Delete, st.side, st.price, st.remaining);
      var rest := RestEvents(Decided(cfg, m, crosses), m, ts, n + 1);
      AddedFew(e, e);
      AddedConcat([e], rest);
      RestAccounts(Decided(cfg, m, crosses), m, ts, n + 1);
    } else {
      AddedShort(ResizeEvents(st, m, ts, n));
    }
  }

  lemma EventsFit(cfg: Config, live: LiveMap, m: Msg, crosses: bool, ts: Nanos, n: nat)
    requires WellFed(live, m) && (m.id in live ==> live[m.id].remaining >= 0)
    ensures forall e | e in MessageEvents(cfg, live, m, crosses, ts, n) :: EventFits(live, m, ts, e)
  {
    hide TradedFrom, Decided, AfterChange, WellFed;
    if !m.kind.Created? && Tracked(live, m.id) {
      TradedIsSize(live[m.id], m);
    }
  }

  // The events account for every unit: what rested, and what was added, was executed,
  // cancelled or deleted, or still rests.
  lemma EventsAccount(cfg: Config, live: LiveMap, m: Msg, crosses: bool, ts: Nanos, n: nat)
    requires WellFed(live, m) && (m.id in live ==> live[m.id].remaining >= 0)
    ensures Added(MessageEvents(cfg, live, m, crosses, ts, n))
            == SizeOf(BelievedIn(Successor(cfg, live, m, crosses), m.id)) - SizeOf(BelievedIn(live, m.id))
  {
    hide Added, FillEvents, LeftEvents, TradedFrom, RestEvents;
    AddedNone();
    if m.kind.Created? {
      RestAccounts(Decided(cfg, m, crosses), m, ts, n);
    } else if Tracked(live, m.id) {
      var st := live[m.id];
      var f, left := FillEvents(st, m, ts, n), Left(st, m);
      TradedIsSize(st, m);
      FillAccounts(st, m, ts, n);
      LeftAccounts(cfg, left, m, crosses, ts, n + |f|);
      AddedConcat(f, LeftEvents(cfg, left, m, crosses, ts, n + |f|));
    } else if m.id in live && live[m.id].pending && !live[m.id].suppressed && !m.kind.Deleted? {
      RestAccounts(AfterChange(cfg, live[m.id], m, crosses), m, ts, n);
    }
  }

  lemma AddedNone()
    ensures Added([]) == 0
  {
  }

  lemma AddedShort(es: seq<BookEvent>)
    requires |es| <= 2
    ensures Added(es) == if es == [] then 0 else if |es| == 1 then Added([es[0]]) else Added([es[0]]) + Added([es[1]])
    ensures forall e | e in es :: Added([e]) == if e.kind.Add? then e.qty else -e.qty
  {
    hide Added;
    AddedNone();
    if |es| == 1 {
      assert es == [es[0]];
      AddedFew(es[0], es[0]);
    } else if |es| == 2 {
      assert es == [es[0], es[1]];
      AddedFew(es[0], es[1]);
      AddedFew(es[1], es[0]);
    }
  }

  // Of an order believed to rest, what executes is what the message says traded: all
  // of it, unless less was believed to rest.
  lemma ExecutedIs(cfg: Config, live: LiveMap, m: Msg, crosses: bool, ts: Nanos, n: nat)
    requires !m.kind.Created? && Tracked(live, m.id) && live[m.id].remaining >= 0
    ensures var x := ExecutedIn(MessageEvents(cfg, live, m, crosses, ts, n));
            match m.traded
            case None => x == 0
            case Some(q) => 0 <= x <= live[m.id].remaining && (0 <= q <= live[m.id].remaining ==> x == q)
                            && (q < 0 ==> x == 0) && (q > live[m.id].remaining ==> x == live[m.id].remaining)
  {
    hide ExecutedIn, MessageEvents;
    EventsShape(cfg, live, m, crosses, ts, n);
  }
}
