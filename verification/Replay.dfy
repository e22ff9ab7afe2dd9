// A capture replayed: every line is decoded against the book's own touch and its
// events applied. On a well-formed capture the decoder believes what the messages
// alone say, and the book holds exactly that.
module Replays {
  import opened Types
  import opened BookSpec
  import opened BookViews
  import opened FeedSpec
  import opened FeedStep
  import opened OrderMaps
  import opened OrderBooks
  import opened BookTouches
  import opened Bitstamp
  import opened Beliefs

  // ---- events applied ----

  // How many adds with a size are refused is zero exactly when every one is accepted.
  method ApplyAll(book: OrderBook, es: seq<BookEvent>) returns (refused: nat)
    requires book.Valid()
    modifies book.Owned
    ensures book.Valid() && book.Book() == Run(old(book.Book()), book.Limits(), es)
    ensures refused == 0 <==> AddsAccepted(old(book.Book()), book.Limits(), es)
  {
    hide OrderBook.Valid, OrderBook.Book, OrderBook.Limits, Apply, Run, AddsAccepted;
    ghost var b, lim := book.Book(), book.Limits();
    refused := 0;
    RunNone(b, lim);
    NoneRefused(b, lim);
    assert es[..0] == [];
    for k := 0 to |es|
      invariant book.Valid() && book.Book() == Run(b, lim, es[..k])
      invariant refused == 0 <==> AddsAccepted(b, lim, es[..k])
    {
      RunStep(b, lim, es, k);
      assert es[..k + 1] == es[..k] + [es[k]];
      AddsAcceptedSnoc(b, lim, es[..k], es[k]);
      var r := book.ApplyEvent(es[k]);
      if es[k].kind.Add? && es[k].qty > 0 && !r.Ok? {
        refused := refused + 1;
      }
    }
    assert es[..|es|] == es;
  }

  lemma NoneRefused(b: Book, lim: Limits)
    ensures AddsAccepted(b, lim, [])
  {
  }

  lemma {:induction false} AddsAcceptedConcat(b: Book, lim: Limits, es: seq<BookEvent>, fs: seq<BookEvent>)
    ensures AddsAccepted(b, lim, es + fs) <==> AddsAccepted(b, lim, es) && AddsAccepted(Run(b, lim, es), lim, fs)
    decreases |es|
  {
    hide Apply;
    if es == [] {
      assert es + fs == fs;
    } else {
      assert (es + fs)[1..] == es[1..] + fs;
      AddsAcceptedConcat(Apply(b, lim, es[0]).book, lim, es[1..], fs);
    }
  }

  // ---- the loop, on values ----

  // The decoder's belief, the book it is shown, and the last event number.
  datatype Loop = Loop(live: LiveMap, book: Book, seqNo: nat)

  // What a line asks of the book, whose own touch decides whether it crosses.
  ghost function Asked(cfg: Config, s: Loop, l: Line): seq<BookEvent> {
    match MsgOf(l)
    case None => []
    case Some(m) => MessageEvents(cfg, s.live, m, Crossing(s.book, m.side, m.price), TimeOf(l), s.seqNo)
  }

  ghost function LoopNext(cfg: Config, lim: Limits, s: Loop, l: Line): Loop {
    var es := Asked(cfg, s, l);
    match MsgOf(l)
    case None => s
    case Some(m) =>
      Loop(Successor(cfg, s.live, m, Crossing(s.book, m.side, m.price)), Run(s.book, lim, es), s.seqNo + |es|)
  }

  ghost function LoopAfter(cfg: Config, lim: Limits, s0: Loop, ls: seq<Line>): Loop {
    if ls == [] then s0 else LoopNext(cfg, lim, LoopAfter(cfg, lim, s0, ls[..|ls| - 1]), ls[|ls| - 1])
  }

  // Every event of the loop.
  ghost function AllAsked(cfg: Config, lim: Limits, s0: Loop, ls: seq<Line>): seq<BookEvent> {
    if ls == [] then []
    else
      var before := ls[..|ls| - 1];
      AllAsked(cfg, lim, s0, before) + Asked(cfg, LoopAfter(cfg, lim, s0, before), ls[|ls| - 1])
  }

  lemma LoopSnoc(cfg: Config, lim: Limits, s0: Loop, ls: seq<Line>, k: nat)
    requires k < |ls|
    ensures LoopAfter(cfg, lim, s0, ls[..k + 1]) == LoopNext(cfg, lim, LoopAfter(cfg, lim, s0, ls[..k]), ls[k])
    ensures AllAsked(cfg, lim, s0, ls[..k + 1])
         == AllAsked(cfg, lim, s0, ls[..k]) + Asked(cfg, LoopAfter(cfg, lim, s0, ls[..k]), ls[k])
  {
    hide LoopNext, Asked;
    assert ls[..k + 1][..k] == ls[..k];
  }

  lemma NextIsRun(cfg: Config, lim: Limits, s: Loop, l: Line)
    ensures LoopNext(cfg, lim, s, l).book == Run(s.book, lim, Asked(cfg, s, l))
    ensures LoopNext(cfg, lim, s, l).seqNo == s.seqNo + |Asked(cfg, s, l)|
  {
    hide Run, MessageEvents, Successor;
    RunNone(s.book, lim);
  }

  // ---- one line ----

  // The decoder's window is the book's.
  predicate SameBand(cfg: Config, lim: Limits) {
    lim.Limited? && lim.base == cfg.windowBase && lim.window == cfg.windowTicks > 0
  }

  // The line changes back an order already at nothing where its price now crosses.
  ghost predicate LineRegrows(live: LiveMap, l: Line) {
    && MsgOf(l).Some?
    && var m := MsgOf(l).value;
       && m.kind.Changed? && Tracked(live, m.id) && live[m.id].remaining == 0 < m.amount
       && m.price == live[m.id].price && WouldCross(live, m.side, m.price)
  }

  // In step, with every order inside its band.
  ghost predicate Steady(cfg: Config, s: Loop) {
    WellFormed(s.book) && Lockstep(s.live, s.book) && Banded(cfg, s.live)
  }

  lemma SomeTouch(b: Book) returns (t: BookTouch)
    ensures TouchIs(t, b)
  {
    t := BookTouch(false, false, 0, 0);
    if p :| p in b.bids {
      var best := BestExists(b.bids, Bid, p);
      t := t.(hasBid := true, bid := best);
    }
    if p :| p in b.asks {
      var best := BestExists(b.asks, Ask, p);
      t := t.(hasAsk := true, ask := best);
    }
  }

  lemma RestingAfter(live: LiveMap, live': LiveMap, id: OrderId, b: Book)
    requires Lockstep(live, b) && DiffersAt(live, live', id)
    ensures var others := b.index.Keys - {id};
            RestingIds(live') == if BelievedIn(live', id).Rests? then others + {id} else others
  {
    hide Believed, Lockstep;
    RestingIsIndex(live, b);
    forall i | i != id ensures i in RestingIds(live') <==> i in RestingIds(live) {
      assert BelievedIn(live', i) == BelievedIn(live, i);
    }
  }

  // There is a slot for the order exactly when those then believed to rest do not
  // outnumber the slots.
  lemma SlotIs(cfg: Config, live: LiveMap, m: Msg, t: BookTouch, b: Book, lim: Limits)
    requires Lockstep(live, b) && lim.Limited? && |b.index| <= lim.capacity
    ensures var live' := Successor(cfg, live, m, Marketable(m.side, m.price, t));
            HasSlot(cfg, live, m, t, b, lim) <==> |RestingIds(live')| <= lim.capacity
  {
    hide Successor, Marketable, BelievedIn, RestingIds, Lockstep, DiffersAt;
    var live', others := Successor(cfg, live, m, Marketable(m.side, m.price, t)), b.index.Keys - {m.id};
    SuccessorDiffers(cfg, live, m, Marketable(m.side, m.price, t));
    RestingAfter(live, live', m.id, b);
    assert |others + {m.id}| == |others| + 1;
    SubsetCard(others, b.index.Keys);
    assert |b.index| == |b.index.Keys|;
  }

  // One line from a loop in step: belief and events are those of the messages alone,
  // and step is kept if and only if the line does not regrow an order and the orders
  // then believed to rest do not outnumber the slots.
  lemma LineKeepsStep(cfg: Config, lim: Limits, s: Loop, l: Line)
    requires Steady(cfg, s) && SameBand(cfg, lim) && |s.book.index| <= lim.capacity
    requires MsgOf(l).Some? ==> WellFed(s.live, MsgOf(l).value)
    ensures var s' := LoopNext(cfg, lim, s, l);
            && s'.live == NextBelief(cfg, s.live, l) && Asked(cfg, s, l) == LineEvents(cfg, s.live, l, s.seqNo)
            && (Lockstep(s'.live, s'.book) <==> !LineRegrows(s.live, l) && |RestingIds(s'.live)| <= lim.capacity)
            && (Lockstep(s'.live, s'.book) ==> Steady(cfg, s') && AddsAccepted(s.book, lim, Asked(cfg, s, l)))
            && (LineRegrows(s.live, l) ==> !AddsAccepted(s.book, lim, Asked(cfg, s, l)))
  {
    hide WellFormed, Lockstep, TouchIs, AddsAccepted, Run, WouldCross, Marketable, MessageEvents, Successor, Banded,
         WellFed, Crossing, RestingIds, HasSlot;
    RunNone(s.book, lim);
    NoneRefused(s.book, lim);
    if MsgOf(l).Some? {
      var m := MsgOf(l).value;
      var t := SomeTouch(s.book);
      MarketableCrosses(t, s.book, m.side, m.price);
      CrossingIsBelieved(s.live, s.book, m.side, m.price);
      SlotIs(cfg, s.live, m, t, s.book, lim);
      StaysBanded(cfg, s.live, m, Marketable(m.side, m.price, t));
      MessageKeepsStep(cfg, s.live, m, t, s.book, lim, TimeOf(l), s.seqNo);
    } else {
      RestingIsIndex(s.live, s.book);
    }
  }

  // ---- a whole capture ----

  ghost predicate NeverRegrows(cfg: Config, ls: seq<Line>) {
    forall k | 0 <= k < |ls| :: !RegrowsAt(cfg, ls, k)
  }

  ghost predicate RegrowsAt(cfg: Config, ls: seq<Line>, k: nat)
    requires k < |ls|
  {
    LineRegrows(BeliefAfter(cfg, ls[..k]), ls[k])
  }

  // At every point the orders believed to rest fit the pool.
  ghost predicate NeverTooMany(cfg: Config, ls: seq<Line>, slots: nat) {
    forall k | 0 <= k <= |ls| :: FitsAt(cfg, ls, slots, k)
  }

  ghost predicate FitsAt(cfg: Config, ls: seq<Line>, slots: nat, k: nat)
    requires k <= |ls|
  {
    |RestingIds(BeliefAfter(cfg, ls[..k]))| <= slots
  }

  // After the first k lines decoder and book are in step.
  ghost predicate InStepAt(cfg: Config, lim: Limits, s0: Loop, ls: seq<Line>, k: nat)
    requires k <= |ls|
  {
    var s := LoopAfter(cfg, lim, s0, ls[..k]);
    Lockstep(s.live, s.book)
  }

  ghost predicate Fresh(s: Loop) {
    s.live == map[] && WellFormed(s.book) && Lockstep(map[], s.book)
  }

  lemma StreamStep(cfg: Config, ls: seq<Line>, k: nat, n: nat, b: Book, lim: Limits)
    requires k < |ls|
    ensures var live, stream := BeliefAfter(cfg, ls[..k]), StreamOf(cfg, ls[..k], n);
            var es := LineEvents(cfg, live, ls[k], n + |stream|);
            && BeliefAfter(cfg, ls[..k + 1]) == NextBelief(cfg, live, ls[k])
            && StreamOf(cfg, ls[..k + 1], n) == stream + es
            && Run(b, lim, stream + es) == Run(Run(b, lim, stream), lim, es)
            && (AddsAccepted(b, lim, stream) && AddsAccepted(Run(b, lim, stream), lim, es) ==>
               AddsAccepted(b, lim, stream + es))
  {
    hide NextBelief, LineEvents, Run, AddsAccepted;
    assert ls[..k + 1][..k] == ls[..k];
    var live, stream := BeliefAfter(cfg, ls[..k]), StreamOf(cfg, ls[..k], n);
    var es := LineEvents(cfg, live, ls[k], n + |stream|);
    RunConcat(b, lim, stream, es);
    AddsAcceptedConcat(b, lim, stream, es);
  }

  // The loop is where the messages alone put it.
  ghost predicate AsSpoken(cfg: Config, lim: Limits, s0: Loop, ls: seq<Line>, k: nat)
    requires k <= |ls|
  {
    var s, stream := LoopAfter(cfg, lim, s0, ls[..k]), StreamOf(cfg, ls[..k], s0.seqNo);
    && s == Loop(BeliefAfter(cfg, ls[..k]), Run(s0.book, lim, stream), s0.seqNo + |stream|)
    && AllAsked(cfg, lim, s0, ls[..k]) == stream && AddsAccepted(s0.book, lim, stream) && Steady(cfg, s)
  }

  lemma StartsAsSpoken(cfg: Config, lim: Limits, s0: Loop, ls: seq<Line>)
    requires Fresh(s0)
    ensures AsSpoken(cfg, lim, s0, ls, 0)
  {
    hide WellFormed, Lockstep, Run, AddsAccepted;
    RunNone(s0.book, lim);
    NoneRefused(s0.book, lim);
  }

  lemma SpokenStep(cfg: Config, lim: Limits, s0: Loop, ls: seq<Line>, k: nat)
    requires GoodFeed(ls) && SameBand(cfg, lim) && k < |ls| && AsSpoken(cfg, lim, s0, ls, k)
             && FitsAt(cfg, ls, lim.capacity, k)
    ensures InStepAt(cfg, lim, s0, ls, k + 1) <==> !RegrowsAt(cfg, ls, k) && FitsAt(cfg, ls, lim.capacity, k + 1)
    ensures InStepAt(cfg, lim, s0, ls, k + 1) ==> AsSpoken(cfg, lim, s0, ls, k + 1)
  {
    hide GoodFeed, SameBand, WellFed, Run, AddsAccepted, LineEvents, NextBelief, LoopNext, Asked, BeliefAfter,
         StreamOf, LoopAfter, AllAsked, LineRegrows, RestingIds, Lockstep, WellFormed, Banded;
    var s := LoopAfter(cfg, lim, s0, ls[..k]);
    GoodPrefix(ls, k);
    BeliefIsSaid(cfg, ls[..k]);
    if MsgOf(ls[k]).Some? {
      NextIsWellFed(ls, k, s.live);
    }
    RestingIsIndex(s.live, s.book);
    LineKeepsStep(cfg, lim, s, ls[k]);
    LoopSnoc(cfg, lim, s0, ls, k);
    NextIsRun(cfg, lim, s, ls[k]);
    StreamStep(cfg, ls, k, s0.seqNo, s0.book, lim);
  }

  lemma {:induction false} SpokenIfFits(cfg: Config, lim: Limits, s0: Loop, ls: seq<Line>, k: nat)
    requires GoodFeed(ls) && SameBand(cfg, lim) && Fresh(s0) && k <= |ls|
    requires NeverRegrows(cfg, ls) && NeverTooMany(cfg, ls, lim.capacity)
    ensures AsSpoken(cfg, lim, s0, ls, k)
  {
    hide GoodFeed, AsSpoken, InStepAt, RegrowsAt, FitsAt, Fresh;
    if k == 0 {
      StartsAsSpoken(cfg, lim, s0, ls);
    } else {
      SpokenIfFits(cfg, lim, s0, ls, k - 1);
      assert !RegrowsAt(cfg, ls, k - 1) && FitsAt(cfg, ls, lim.capacity, k - 1) && FitsAt(cfg, ls, lim.capacity, k);
      SpokenStep(cfg, lim, s0, ls, k - 1);
    }
  }

  lemma {:induction false} SpokenIfInStep(cfg: Config, lim: Limits, s0: Loop, ls: seq<Line>, k: nat)
    requires GoodFeed(ls) && SameBand(cfg, lim) && Fresh(s0) && k <= |ls|
    requires forall j | 0 <= j <= k :: InStepAt(cfg, lim, s0, ls, j)
    ensures AsSpoken(cfg, lim, s0, ls, k)
    ensures forall j | 0 <= j < k :: !RegrowsAt(cfg, ls, j)
    ensures forall j | 0 <= j <= k :: FitsAt(cfg, ls, lim.capacity, j)
  {
    hide GoodFeed, AsSpoken, InStepAt, RegrowsAt, Fresh, FitsAt;
    if k == 0 {
      StartsAsSpoken(cfg, lim, s0, ls);
      NothingFits(cfg, ls, lim.capacity);
    } else {
      SpokenIfInStep(cfg, lim, s0, ls, k - 1);
      SpokenStep(cfg, lim, s0, ls, k - 1);
    }
  }

  lemma NothingFits(cfg: Config, ls: seq<Line>, slots: nat)
    ensures FitsAt(cfg, ls, slots, 0)
  {
    assert RestingIds(map[]) == {};
  }

  lemma SpokenIsInStep(cfg: Config, lim: Limits, s0: Loop, ls: seq<Line>, k: nat)
    requires k <= |ls| && AsSpoken(cfg, lim, s0, ls, k)
    ensures InStepAt(cfg, lim, s0, ls, k)
  {
  }

  // From a loop that knows nothing, over any good feed: decoder and book are in step
  // after every line if and only if no line regrows an order and the orders believed
  // to rest always fit the pool.
  lemma StaysInStep(cfg: Config, lim: Limits, s0: Loop, ls: seq<Line>)
    requires GoodFeed(ls) && SameBand(cfg, lim) && Fresh(s0)
    ensures (forall k | 0 <= k <= |ls| :: InStepAt(cfg, lim, s0, ls, k))
            <==> NeverRegrows(cfg, ls) && NeverTooMany(cfg, ls, lim.capacity)
  {
    hide GoodFeed, AsSpoken, InStepAt, RegrowsAt, Fresh, FitsAt;
    if NeverRegrows(cfg, ls) && NeverTooMany(cfg, ls, lim.capacity) {
      forall k | 0 <= k <= |ls| ensures InStepAt(cfg, lim, s0, ls, k) {
        SpokenIfFits(cfg, lim, s0, ls, k);
        SpokenIsInStep(cfg, lim, s0, ls, k);
      }
    }
    if forall k | 0 <= k <= |ls| :: InStepAt(cfg, lim, s0, ls, k) {
      SpokenIfInStep(cfg, lim, s0, ls, |ls|);
    }
  }

  // A feed that never changes an order back from nothing regrows none.
  lemma NeverBackIsEnough(cfg: Config, ls: seq<Line>)
    requires GoodFeed(ls) && NeverBack(ls)
    ensures NeverRegrows(cfg, ls)
  {
    hide GoodFeed, NeverBack, BeliefAfter, WouldCross, MsgOf;
    forall k: nat | k < |ls| ensures !RegrowsAt(cfg, ls, k) {
      GoodPrefix(ls, k);
      BeliefIsSaid(cfg, ls[..k]);
      if MsgOf(ls[k]).Some? {
        NextIsNotBack(ls, k, BeliefAfter(cfg, ls[..k]));
      }
    }
  }

  // If the orders created and not yet deleted always fit, so do those resting.
  lemma OpenFits(cfg: Config, ls: seq<Line>, slots: nat)
    requires forall k | 0 <= k <= |ls| :: |OpenAfter(ls[..k])| <= slots
    ensures NeverTooMany(cfg, ls, slots)
  {
    hide OpenAfter, BeliefAfter, Believed;
    forall k: nat | k <= |ls| ensures FitsAt(cfg, ls, slots, k) {
      BelievedAreOpen(cfg, ls[..k]);
      SubsetCard(RestingIds(BeliefAfter(cfg, ls[..k])), OpenAfter(ls[..k]));
    }
  }

  // The order rests with the size, price and side its last message named, unless it
  // is held back or is down to nothing.
  ghost predicate RestsAsSaid(ls: seq<Line>, live: LiveMap, b: Book, id: OrderId) {
    if id !in OpenAfter(ls) || id !in live || live[id].pending || live[id].suppressed then id !in b.index
    else
      && LastWord(ls, id).Some?
      && var m := LastWord(ls, id).value;
         StandingIn(b, id) == if m.amount == 0 then Absent else Rests(Loc(m.side, m.price), m.amount)
  }

  lemma SaidRests(cfg: Config, ls: seq<Line>, b: Book, id: OrderId)
    requires GoodFeed(ls) && Lockstep(BeliefAfter(cfg, ls), b)
    ensures id in BeliefAfter(cfg, ls) <==> id in OpenAfter(ls)
    ensures RestsAsSaid(ls, BeliefAfter(cfg, ls), b, id)
  {
    hide GoodFeed, BeliefAfter, QtyOfSpec, Lockstep;
    LastWordHolds(cfg, ls, id);
    InStepStands(BeliefAfter(cfg, ls), b, id);
  }

  // What a capture in step throughout leaves.
  ghost predicate Faithful(cfg: Config, lim: Limits, s0: Loop, ls: seq<Line>, s: Loop) {
    var stream := StreamOf(cfg, ls, s0.seqNo);
    && s == Loop(BeliefAfter(cfg, ls), Run(s0.book, lim, stream), s0.seqNo + |stream|)
    && AddsAccepted(s0.book, lim, stream) && Steady(cfg, s)
    && forall id :: IsAsSaid(ls, s, id)
  }

  lemma FaithfulIs(cfg: Config, lim: Limits, s0: Loop, ls: seq<Line>, s: Loop)
    requires Faithful(cfg, lim, s0, ls, s)
    ensures Lockstep(s.live, s.book) && AddsAccepted(s0.book, lim, StreamOf(cfg, ls, s0.seqNo))
  {
  }

  ghost predicate IsAsSaid(ls: seq<Line>, s: Loop, id: OrderId) {
    (id in s.live <==> id in OpenAfter(ls)) && RestsAsSaid(ls, s.live, s.book, id)
  }

  // Over a good feed in step: no add is ever refused; the decoder ends believing what
  // the messages alone say and the book is the run of their events; and every open
  // order rests with the size, price and side its last message named, unless held
  // back or down to nothing, while no other order rests.
  lemma EndsFaithful(cfg: Config, lim: Limits, s0: Loop, ls: seq<Line>)
    requires GoodFeed(ls) && SameBand(cfg, lim) && Fresh(s0)
    requires NeverRegrows(cfg, ls) && NeverTooMany(cfg, ls, lim.capacity)
    ensures Faithful(cfg, lim, s0, ls, LoopAfter(cfg, lim, s0, ls))
    ensures AllAsked(cfg, lim, s0, ls) == StreamOf(cfg, ls, s0.seqNo)
  {
    hide GoodFeed, SameBand, Fresh, NeverRegrows, NeverTooMany, Run, AddsAccepted, BeliefAfter, StreamOf, LoopAfter,
         AllAsked, WellFormed, Lockstep, Banded, RestsAsSaid, OpenAfter;
    SpokenIfFits(cfg, lim, s0, ls, |ls|);
    assert ls[..|ls|] == ls;
    var s := LoopAfter(cfg, lim, s0, ls);
    forall id ensures IsAsSaid(ls, s, id) {
      SaidRests(cfg, ls, s.book, id);
    }
  }

  // ---- the loop with a real book ----

  ghost function LoopOf(dec: BitstampDecoder, book: OrderBook): Loop
    requires book.ids.Valid()
    reads dec, book.Owned
  {
    Loop(dec.live, book.Book(), dec.seqNo)
  }

  // Decoder and book in step, inside one window.
  ghost predicate InSync(dec: BitstampDecoder, book: OrderBook)
    reads dec, book, book.Owned
    ensures InSync(dec, book) ==> dec.Valid() && book.Valid() && book.ids.Valid()
  {
    && dec.Valid() && book.Valid() && dec !in book.Owned && SameBand(dec.cfg, book.Limits())
    && Lockstep(dec.live, book.Book())
  }

  // One line decoded against the book's touch and applied: one step of the loop, with
  // no add refused exactly when each is accepted.
  method ReplayLine(dec: BitstampDecoder, book: OrderBook, l: Line) returns (refused: nat)
    requires dec.Valid() && book.Valid() && dec !in book.Owned
    modifies dec, book.Owned
    ensures dec.Valid() && book.Valid()
    ensures LoopOf(dec, book) == LoopNext(dec.cfg, book.Limits(), old(LoopOf(dec, book)), l)
    ensures dec.chainGaps == old(dec.chainGaps) + GapAt(old(dec.lastEventId), l)
    ensures dec.lastEventId == Remembered(old(dec.lastEventId), l)
    ensures refused == 0 <==> AddsAccepted(old(book.Book()), book.Limits(), Asked(dec.cfg, old(LoopOf(dec, book)), l))
  {
    hide OrderBook.Valid, OrderBook.Book, OrderBook.Limits, Run, AddsAccepted, TouchIs, OrderMap.Valid,
         OrderMap.Contents, MessageEvents, Successor, Crossing, Marketable, Banded, MsgOf, Unusable, GapAt, Remembered;
    var t := TouchOf(book);
    ghost var b, lim := book.Book(), book.Limits();
    if MsgOf(l).Some? {
      MarketableCrosses(t, b, MsgOf(l).value.side, MsgOf(l).value.price);
    }
    var ok, out := dec.DecodeLine(l, t);
    RunNone(b, lim);
    NoneRefused(b, lim);
    UnusableSaysNothing(l);
    if ok {
      refused := ApplyAll(book, out.ev);
    } else {
      refused := 0;
    }
  }

  // A whole capture: the loop run over its lines. From a decoder that knows nothing,
  // on a good feed that keeps step, it ends faithful to the messages, and refuses
  // nothing.
  method Replay(dec: BitstampDecoder, book: OrderBook, ls: seq<Line>) returns (refused: nat)
    requires dec.Valid() && book.Valid() && dec !in book.Owned
    modifies dec, book.Owned
    ensures dec.Valid() && book.Valid()
    ensures LoopOf(dec, book) == LoopAfter(dec.cfg, book.Limits(), old(LoopOf(dec, book)), ls)
    ensures dec.chainGaps == old(dec.chainGaps) + GapsIn(old(dec.lastEventId), ls)
    ensures refused == 0 <==>
              AddsAccepted(old(book.Book()), book.Limits(),
                AllAsked(dec.cfg, book.Limits(), old(LoopOf(dec, book)), ls))
    ensures old(InSync(dec, book)) && old(dec.live) == map[] && GoodFeed(ls)
            && NeverRegrows(dec.cfg, ls) && NeverTooMany(dec.cfg, ls, book.maxOrders) ==>
              InSync(dec, book) && refused == 0
                && Faithful(dec.cfg, book.Limits(), old(LoopOf(dec, book)), ls, LoopOf(dec, book))
  {
    hide OrderBook.Valid, OrderBook.Book, OrderMap.Valid, OrderMap.Contents, Run, AddsAccepted, LoopNext, Asked,
         LoopAfter, AllAsked, GoodFeed, NeverRegrows, NeverTooMany, Faithful, Banded, Lockstep, SameBand, GapAt,
         Remembered;
    ghost var s0, lim, cfg := LoopOf(dec, book), book.Limits(), dec.cfg;
    ghost var blank := InSync(dec, book) && dec.live == map[];
    book.BookWellFormed();
    refused := 0;
    LoopStart(cfg, lim, s0, ls);
    ghost var last := dec.lastEventId;
    for k := 0 to |ls|
      invariant dec.Valid() && book.Valid() && book.Limits() == lim
      invariant LoopOf(dec, book) == LoopAfter(cfg, lim, s0, ls[..k])
      invariant dec.chainGaps == old(dec.chainGaps) + GapsIn(last, ls[..k])
      invariant dec.lastEventId == RememberedAfter(last, ls[..k])
      invariant LoopOf(dec, book).book == Run(s0.book, lim, AllAsked(cfg, lim, s0, ls[..k]))
      invariant refused == 0 <==> AddsAccepted(s0.book, lim, AllAsked(cfg, lim, s0, ls[..k]))
    {
      ghost var s, before := LoopOf(dec, book), AllAsked(cfg, lim, s0, ls[..k]);
      LoopSnoc(cfg, lim, s0, ls, k);
      GapsSnoc(last, ls, k);
      NextIsRun(cfg, lim, s, ls[k]);
      RunConcat(s0.book, lim, before, Asked(cfg, s, ls[k]));
      AddsAcceptedConcat(s0.book, lim, before, Asked(cfg, s, ls[k]));
      var r := ReplayLine(dec, book, ls[k]);
      refused := refused + r;
    }
    assert ls[..|ls|] == ls;
    if blank && GoodFeed(ls) && NeverRegrows(cfg, ls) && NeverTooMany(cfg, ls, book.maxOrders) {
      EndsFaithful(cfg, lim, s0, ls);
      FaithfulIs(cfg, lim, s0, ls, LoopOf(dec, book));
    }
  }

  lemma LoopStart(cfg: Config, lim: Limits, s0: Loop, ls: seq<Line>)
    ensures LoopAfter(cfg, lim, s0, ls[..0]) == s0 && AllAsked(cfg, lim, s0, ls[..0]) == []
    ensures Run(s0.book, lim, []) == s0.book && AddsAccepted(s0.book, lim, [])
  {
  }

  // ---- the bad case happens ----

  function OrderLine(event: string, id: OrderId, s: Side, price: Ticks, amount: Qty, traded: Qty): Line {
    Line(event, true, None, None, "", "", Some(id), Some(s), Some(price), Some(amount), Some(traded), None)
  }

  // A bid, filled to nothing; an ask resting at its price; the bid changed back.
  function RegrowthLines(): (ls: seq<Line>)
    ensures |ls| == 4
  {
    [OrderLine("order_created", 1, Bid, 5, 2, 0), OrderLine("order_changed", 1, Bid, 5, 0, 2),
     OrderLine("order_created", 2, Ask, 5, 3, 0), OrderLine("order_changed", 1, Bid, 5, 2, 0)]
  }

  lemma NothingCrosses(live: LiveMap, s: Side, p: Ticks)
    requires forall id | id in live :: live[id].remaining == 0
    ensures !WouldCross(live, s, p)
  {
  }

  // What the first k of its lines leave believed.
  function RegrowthBelief(k: nat): LiveMap {
    var empty := OrderState(0, 5, Bid, false, false);
    if k == 0 then map[]
    else if k == 1 then map[1 := empty.(remaining := 2)]
    else if k == 2 then map[1 := empty]
    else map[1 := empty, 2 := OrderState(3, 5, Ask, false, false)]
  }

  // Each line is one a feed may send; the last regrows.
  lemma RegrowthStep(cfg: Config, k: nat)
    requires cfg == Config(0, 10) && k < 4
    ensures var live, l := RegrowthBelief(k), RegrowthLines()[k];
            && MsgOf(l).Some? && WellFed(live, MsgOf(l).value)
            && if k == 3 then LineRegrows(live, l)
               else NextBelief(cfg, live, l) == RegrowthBelief(k + 1) && !LineRegrows(live, l)
  {
    var live := RegrowthBelief(k);
    if k == 0 {
      NothingCrosses(live, Bid, 5);
    } else if k == 2 {
      NothingCrosses(live, Ask, 5);
    } else if k == 3 {
      assert RestsAcross(live, Bid, 5, 2);
    }
  }

  lemma RegrowthFits(k: nat)
    ensures |RestingIds(RegrowthBelief(k))| <= 4
  {
    var live := RegrowthBelief(k);
    SubsetCard(RestingIds(live), {1, 2});
  }

  lemma {:induction false} RegrowthLoop(cfg: Config, lim: Limits, s0: Loop, k: nat)
    requires cfg == Config(0, 10) && lim == Limited(0, 10, 4) && Fresh(s0) && k < 4
    ensures var s := LoopAfter(cfg, lim, s0, RegrowthLines()[..k]);
            Steady(cfg, s) && s.live == RegrowthBelief(k) && |s.book.index| <= 4
  {
    hide RegrowthLines, RegrowthBelief, Lockstep, WellFormed, LoopAfter, LoopNext, NextBelief, LineRegrows, MsgOf,
         WellFed, RestingIds;
    RegrowthFits(k);
    if k == 0 {
      NothingHeld(cfg, lim, s0);
    } else {
      RegrowthLoop(cfg, lim, s0, k - 1);
      RegrowthStep(cfg, k - 1);
      LoopSnoc(cfg, lim, s0, RegrowthLines(), k - 1);
      LineKeepsStep(cfg, lim, LoopAfter(cfg, lim, s0, RegrowthLines()[..k - 1]), RegrowthLines()[k - 1]);
    }
    var s := LoopAfter(cfg, lim, s0, RegrowthLines()[..k]);
    RestingIsIndex(s.live, s.book);
  }

  lemma NothingHeld(cfg: Config, lim: Limits, s0: Loop)
    requires Fresh(s0)
    ensures RegrowthBelief(0) == map[] && LoopAfter(cfg, lim, s0, RegrowthLines()[..0]) == s0 && Steady(cfg, s0)
  {
  }

  lemma RegrowthEnds(cfg: Config, lim: Limits, s0: Loop)
    requires cfg == Config(0, 10) && lim == Limited(0, 10, 4) && Fresh(s0)
    ensures var s := LoopAfter(cfg, lim, s0, RegrowthLines()); !Lockstep(s.live, s.book)
  {
    hide RegrowthLines, RegrowthBelief, Lockstep, WellFormed, LoopAfter, LoopNext, NextBelief, LineRegrows, MsgOf,
         WellFed, RestingIds, Asked, Run, AddsAccepted, MessageEvents, Successor;
    RegrowthLoop(cfg, lim, s0, 3);
    RegrowthStep(cfg, 3);
    LoopSnoc(cfg, lim, s0, RegrowthLines(), 3);
    LineKeepsStep(cfg, lim, LoopAfter(cfg, lim, s0, RegrowthLines()[..3]), RegrowthLines()[3]);
    assert RegrowthLines()[..4] == RegrowthLines();
  }

  // A new decoder and a new book, put out of step by four lines of a feed.
  method RegrowthReached(hash: Hash) returns (dec: BitstampDecoder, book: OrderBook)
    ensures fresh(dec) && fresh(book) && dec.Valid() && book.Valid()
    ensures !Lockstep(dec.live, book.Book())
  {
    hide OrderBook.Valid, OrderBook.Book, OrderMap.Valid, OrderMap.Contents, Run, AddsAccepted, LoopNext, LoopAfter,
         AllAsked, Asked, RegrowthLines, WellFormed, GoodFeed;
    dec := new BitstampDecoder(Config(0, 10));
    book := new OrderBook(0, 10, 4, hash);
    book.BookWellFormed();
    EmptyInStep();
    RegrowthEnds(dec.cfg, book.Limits(), LoopOf(dec, book));
    var refused := Replay(dec, book, RegrowthLines());
  }

  lemma EmptyInStep()
    ensures Lockstep(map[], EMPTY_BOOK)
  {
  }
}
