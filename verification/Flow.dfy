// The fixed-weight order-flow generator, closed with a book: it draws events from
// its own list of live orders, and is told of each one applied. Its random draws
// are arbitrary choices.
module Flow {
  import opened Types
  import opened Queues
  import opened BookSpec
  import opened BookViews
  import opened BookRuns
  import opened FeedSpec
  import opened OrderMaps
  import opened OrderBooks
  import opened BookTouches

  datatype Live = Live(id: OrderId, qty: Qty, price: Ticks, side: Side)

  type Index = map<OrderId, nat>

  // The index finds every live order, and only those.
  ghost predicate Indexed(live: seq<Live>, at: Index) {
    && (forall i | 0 <= i < |live| :: live[i].id in at && at[live[i].id] == i && live[i].qty > 0)
    && (forall id | id in at :: at[id] < |live| && live[at[id]].id == id)
  }

  function BelievedOf(live: seq<Live>, at: Index, id: OrderId): Standing {
    if id in at && at[id] < |live| then
      var l := live[at[id]];
      Rests(Loc(l.side, l.price), l.qty)
    else Absent
  }

  // The live list is the book's resting orders, by id, size, price and side.
  ghost predicate Agrees(live: seq<Live>, at: Index, b: Book) {
    forall id :: AgreesOn(live, at, b, id)
  }

  ghost predicate AgreesOn(live: seq<Live>, at: Index, b: Book, id: OrderId) {
    StandingIn(b, id) == BelievedOf(live, at, id)
  }

  // An event the generator may emit: it adds under a new id, short of the touch it
  // was last told, and refers only to orders it believes rest.
  predicate Emittable(e: BookEvent, live: seq<Live>, at: Index, t: BookTouch, nextId: OrderId) {
    match e.kind
    case Add => e.qty > 0 && e.orderId !in at && e.orderId < nextId && !Marketable(e.side, e.price, t)
    case Delete => e.orderId in at
    case Reduce => e.orderId in at && at[e.orderId] < |live| && 0 < e.qty <= live[at[e.orderId]].qty
    case Execute => e.orderId in at && at[e.orderId] < |live| && 0 < e.qty <= live[at[e.orderId]].qty
    case Replace =>
      e.orderId in at && at[e.orderId] < |live| && e.newId !in at && e.newId < nextId && e.qty > 0
      && !Marketable(live[at[e.orderId]].side, e.price, t) && e.side == live[at[e.orderId]].side
    case Clear => false
    case Aggress => true
  }

  // The book and the generator agree on the orders and on the touch.
  ghost predicate Together(live: seq<Live>, at: Index, t: BookTouch, b: Book) {
    WellFormed(b) && Indexed(live, at) && Agrees(live, at, b) && TouchIs(t, b)
  }

  lemma AgreedOn(live: seq<Live>, at: Index, b: Book, id: OrderId)
    requires Agrees(live, at, b)
    ensures StandingIn(b, id) == BelievedOf(live, at, id)
  {
    assert AgreesOn(live, at, b, id);
  }

  // What a book would call a sensible event: a new order is new and does not cross;
  // anything else concerns an order that rests, and cuts at most its size.
  ghost predicate Sensible(b: Book, e: BookEvent) {
    match e.kind
    case Add => e.qty > 0 && e.orderId !in b.index && !Crossing(b, e.side, e.price)
    case Delete => e.orderId in b.index
    case Reduce => e.orderId in b.index && 0 < e.qty <= QtyOfSpec(b, e.orderId)
    case Execute => e.orderId in b.index && 0 < e.qty <= QtyOfSpec(b, e.orderId)
    case Replace =>
      e.orderId in b.index && e.newId !in b.index && e.qty > 0 && e.side == b.index[e.orderId].side
        && !Crossing(b, e.side, e.price)
    case Clear => false
    case Aggress => true
  }

  // Knowing only its own list and the touch, the generator makes sense to the book.
  lemma EmittedIsSensible(b: Book, live: seq<Live>, at: Index, t: BookTouch, nextId: OrderId, e: BookEvent)
    requires Together(live, at, t, b) && Emittable(e, live, at, t, nextId)
    ensures Sensible(b, e)
  {
    hide WellFormed, Crossing, QueueOf, TouchIs, Agrees;
    AgreedOn(live, at, b, e.orderId);
    AgreedOn(live, at, b, e.newId);
    if e.orderId in at {
      var l := live[at[e.orderId]];
      StandsHeld(b, e.orderId, Loc(l.side, l.price), l.qty);
      if e.kind.Replace? {
        MarketableCrosses(t, b, l.side, e.price);
      }
    }
    if e.kind.Add? {
      MarketableCrosses(t, b, e.side, e.price);
    }
  }

  // Every event it may emit, inside the window and the pool, is accepted.
  lemma EmittedIsAccepted(b: Book, lim: Limits, live: seq<Live>, at: Index, t: BookTouch, nextId: OrderId, e: BookEvent)
    requires Together(live, at, t, b) && Emittable(e, live, at, t, nextId) && Fits(b, lim, e)
    ensures Sensible(b, e) && Apply(b, lim, e).error.Ok?
  {
    hide WellFormed, Crossing, QueueOf, Removed, TouchIs, Agrees, Emittable;
    EmittedIsSensible(b, live, at, t, nextId, e);
    HeldIsIndexed(b, e.orderId);
    if e.kind.Replace? {
      ReplaceIsAccepted(b, lim, e.orderId, e.newId, e.price, e.qty);
    }
  }

  lemma ReplaceIsAccepted(b: Book, lim: Limits, oldId: OrderId, newId: OrderId, price: Ticks, qty: Qty)
    requires WellFormed(b) && oldId in b.index && Holds(QueueOf(b, oldId), oldId) && newId !in b.index && qty > 0
    requires !Crossing(b, b.index[oldId].side, price) && InWindow(lim, price)
             && (lim.Limited? ==> |b.index| <= lim.capacity)
    ensures ReplaceOp(b, lim, oldId, newId, price, qty).error.Ok?
  {
    hide WellFormed, Crossing;
    LaddersShrink(b, oldId);
    StillNotCrossing(b, Removed(b, oldId), b.index[oldId].side, price);
    assert Removed(b, oldId).index == b.index - {oldId};
  }

  // ---- what applying an event does to one order ----

  lemma AddStands(b: Book, lim: Limits, e: BookEvent, i: OrderId)
    requires WellFormed(b) && e.kind.Add? && Apply(b, lim, e).error.Ok?
    ensures StandingIn(Apply(b, lim, e).book, i)
            == if i == e.orderId then Rests(Loc(e.side, e.price), e.qty) else StandingIn(b, i)
  {
    hide WellFormed, Appended, StandingIn, Crossing;
    AppendedStands(b, e.side, e.price, Entry(e.orderId, e.qty, false), i);
  }

  lemma DeleteStands(b: Book, lim: Limits, e: BookEvent, i: OrderId)
    requires WellFormed(b) && e.kind.Delete? && Apply(b, lim, e).error.Ok?
    ensures StandingIn(Apply(b, lim, e).book, i) == if i == e.orderId then Absent else StandingIn(b, i)
  {
    hide WellFormed, Removed, StandingIn;
    RemovedStands(b, e.orderId, i);
  }

  lemma CutStands(b: Book, lim: Limits, e: BookEvent, i: OrderId)
    requires WellFormed(b) && (e.kind.Reduce? || e.kind.Execute?) && Apply(b, lim, e).error.Ok?
    ensures e.orderId in b.index
    ensures StandingIn(Apply(b, lim, e).book, i)
            == if i != e.orderId then StandingIn(b, i)
               else if QtyOfSpec(b, i) == e.qty then Absent
               else Rests(b.index[i], QtyOfSpec(b, i) - e.qty)
  {
    hide WellFormed, Removed, Reduced, StandingIn;
    HeldIsIndexed(b, e.orderId);
    RemovedStands(b, e.orderId, i);
    ReducedStands(b, e.orderId, e.qty, i);
  }

  lemma ReplaceStands(b: Book, lim: Limits, e: BookEvent, i: OrderId)
    requires WellFormed(b) && e.kind.Replace? && Apply(b, lim, e).error.Ok?
    ensures e.orderId in b.index
    ensures StandingIn(Apply(b, lim, e).book, i)
            == if i == e.newId then Rests(Loc(b.index[e.orderId].side, e.price), e.qty)
               else if i == e.orderId then Absent else StandingIn(b, i)
  {
    hide WellFormed, Removed, Appended, StandingIn, Crossing;
    HeldIsIndexed(b, e.orderId);
    RemovedWellFormed(b, e.orderId);
    RemovedStands(b, e.orderId, i);
    AppendedStands(Removed(b, e.orderId), b.index[e.orderId].side, e.price,
                   Entry(e.newId, e.qty, EntryOf(b, e.orderId).mine), i);
  }

  // The list with the last order moved into the place of the one that goes.
  function Swapped(live: seq<Live>, i: nat): seq<Live>
    requires i < |live|
  {
    live[i := live[|live| - 1]][..|live| - 1]
  }

  function Reindexed(live: seq<Live>, at: Index, id: OrderId): Index
    requires id in at && at[id] < |live|
  {
    var at' := at[live[|live| - 1].id := at[id]];
    map k | k in at' && k != id :: at'[k]
  }

  lemma ForgetKeeps(live: seq<Live>, at: Index, id: OrderId)
    requires Indexed(live, at)
    ensures id in at ==>
              && Indexed(Swapped(live, at[id]), Reindexed(live, at, id))
              && Reindexed(live, at, id).Keys == at.Keys - {id}
    ensures id in at ==> forall i ::
              BelievedOf(Swapped(live, at[id]), Reindexed(live, at, id), i)
                == if i == id then Absent else BelievedOf(live, at, i)
    ensures id !in at ==> BelievedOf(live, at, id) == Absent
  {
  }

  class FlowGenerator {
    const halfSpread: Ticks
    const minQty: Qty
    const maxQty: Qty
    const aggressMax: Qty
    var live: seq<Live>
    var at: Index
    var mid: Ticks
    var pendingImpact: Ticks
    var nextId: OrderId
    var touch: BookTouch
    var ts: Nanos
    var seqNo: nat

    ghost predicate Valid()
      reads this
    {
      && Indexed(live, at) && (forall id | id in at :: id < nextId) && nextId > 0
      && 0 < minQty <= maxQty && aggressMax > 0
    }

    constructor (mid: Ticks, halfSpread: Ticks, minQty: Qty, maxQty: Qty, aggressMax: Qty)
      requires 0 < minQty <= maxQty && aggressMax > 0
      ensures Valid() && live == [] && at == map[] && touch == BookTouch(false, false, 0, 0)
    {
      this.halfSpread, this.minQty, this.maxQty, this.aggressMax, this.mid := halfSpread, minQty, maxQty, aggressMax,
        mid;
      live, at, pendingImpact, nextId, ts, seqNo := [], map[], 0, 1, 0, 0;
      touch := BookTouch(false, false, 0, 0);
    }

    // ---- the live list and its index ----

    method Remember(l: Live)
      requires Indexed(live, at) && l.id !in at && l.qty > 0
      modifies this`live, this`at
      ensures Indexed(live, at) && at.Keys == old(at).Keys + {l.id}
      ensures forall id ::
              BelievedOf(live, at, id)
              == if id == l.id then Rests(Loc(l.side, l.price), l.qty) else BelievedOf(old(live), old(at), id)
    {
      at := at[l.id := |live|];
      live := live + [l];
    }

    // The last order takes the place of the one that goes.
    method Forget(id: OrderId)
      requires Indexed(live, at)
      modifies this`live, this`at
      ensures Indexed(live, at) && at.Keys == old(at).Keys - {id}
      ensures forall i :: BelievedOf(live, at, i) == if i == id then Absent else BelievedOf(old(live), old(at), i)
    {
      hide BelievedOf;
      ForgetKeeps(live, at, id);
      if id !in at {
        return;
      }
      var i := at[id];
      var moved := live[|live| - 1];
      live := live[i := moved];
      at := at[moved.id := i];
      live := live[..|live| - 1];
      at := map k | k in at && k != id :: at[k];
    }

    method Resize(id: OrderId, qty: Qty)
      requires Indexed(live, at) && qty > 0
      modifies this`live
      ensures Indexed(live, at)
      ensures forall i :: BelievedOf(live, at, i) ==
                          if i == id && id in at then Rests(BelievedOf(old(live), at, id).loc, qty)
                            else BelievedOf(old(live), at, i)
    {
      if id in at {
        live := live[at[id] := live[at[id]].(qty := qty)];
      }
    }

    // ---- drawing an event ----

    // Some ticks behind the own touch, and always short of the opposite one.
    method PriceFor(s: Side) returns (p: Ticks)
      ensures !Marketable(s, p, touch)
    {
      var away: nat := *;
      p := if s.Bid? then mid - halfSpread - away else mid + halfSpread + away;
      if s.Bid? && touch.hasAsk && p >= touch.ask {
        p := touch.ask - 1;
      }
      if s.Ask? && touch.hasBid && p <= touch.bid {
        p := touch.bid + 1;
      }
    }

    method RandQty() returns (q: Qty)
      requires 0 < minQty <= maxQty
      ensures minQty <= q <= maxQty
    {
      var draw: nat := *;
      q := minQty + draw % (maxQty - minQty + 1);
    }

    method MakeAdd(e0: BookEvent) returns (e: BookEvent)
      requires Valid()
      modifies this`nextId
      ensures Valid() && e.kind.Add? && Emittable(e, live, at, touch, nextId)
    {
      var bid: bool := *;
      var s := if bid then Bid else Ask;
      var p := PriceFor(s);
      var q := RandQty();
      e := e0.(kind := Add, side := s, price := p, qty := q, orderId := nextId);
      nextId := nextId + 1;
    }

    method MakeAggress(e0: BookEvent) returns (e: BookEvent)
      requires Valid()
      modifies this`nextId, this`pendingImpact
      ensures Valid() && e.kind.Aggress? && Emittable(e, live, at, touch, nextId)
    {
      var bid: bool, big: bool, draw: nat := *, *, *;
      e := e0.(kind := Aggress, side := if bid then Bid else Ask, price := 0, orderId := nextId,
               qty := if big then 1 + draw % aggressMax else 1 + draw % 40);
      nextId := nextId + 1;
      pendingImpact := *;
    }

    method MakeOnExisting(e0: BookEvent, kind: EventType) returns (e: BookEvent)
      requires Valid() && live != [] && (kind.Delete? || kind.Reduce? || kind.Execute? || kind.Replace?)
      modifies this`nextId
      ensures Valid() && e.kind == kind && Emittable(e, live, at, touch, nextId)
    {
      var draw: nat, whole: bool := *, *;
      var l := live[draw % |live|];
      e := e0.(kind := kind, orderId := l.id, side := l.side, price := l.price);
      match kind {
        case Delete => e := e.(qty := 0);
        case Reduce =>
          var cut: nat := *;
          e := e.(qty := if whole then l.qty else 1 + cut % l.qty);
        case Execute =>
          var cut: nat := *;
          e := e.(qty := if whole then l.qty else 1 + cut % l.qty);
        case Replace =>
          e := e.(newId := nextId);
          nextId := nextId + 1;
          var p := PriceFor(l.side);
          var q := RandQty();
          e := e.(price := p, qty := q);
        case _ =>
      }
    }

    // Whatever the draws, an event the generator may emit.
    method Next() returns (e: BookEvent)
      requires Valid()
      modifies this`nextId, this`pendingImpact, this`mid, this`ts, this`seqNo
      ensures Valid() && Emittable(e, live, at, touch, nextId)
    {
      e := BookEvent(ts, seqNo, 0, 0, 0, 0, Add, Bid);
      seqNo := seqNo + 1;
      var gap: nat, drifts: bool, up: bool, pick: nat := *, *, *, *;
      ts := ts + 1 + gap;
      mid, pendingImpact := mid + pendingImpact, 0;
      if drifts {
        mid := if up then mid + 1 else mid - 1;
      }
      if pick == 0 || live == [] {
        e := MakeAdd(e);
      } else if pick == 1 {
        e := MakeOnExisting(e, Delete);
      } else if pick == 2 {
        e := MakeOnExisting(e, Reduce);
      } else if pick == 3 {
        e := MakeOnExisting(e, Execute);
      } else if pick == 4 {
        e := MakeOnExisting(e, Replace);
      } else {
        e := MakeAggress(e);
      }
    }

    // Told of an event applied, and of what is left of its order.
    method OnApplied(e: BookEvent, after: Qty)
      requires Valid() && (e.kind.Clear? || Emittable(e, live, at, touch, nextId))
      modifies this`live, this`at
      ensures Valid()
      ensures forall i :: BelievedOf(live, at, i) == BelievedAfter(old(live), old(at), e, after, i)
    {
      match e.kind {
        case Add => Remember(Live(e.orderId, e.qty, e.price, e.side));
        case Delete => Forget(e.orderId);
        case Reduce => OnCut(e.orderId, after);
        case Execute => OnCut(e.orderId, after);
        case Replace =>
          Forget(e.orderId);
          Remember(Live(e.newId, e.qty, e.price, e.side));
        case Clear => live, at := [], map[];
        case Aggress =>
      }
    }

    method OnCut(id: OrderId, after: Qty)
      requires Valid()
      modifies this`live, this`at
      ensures Valid() && at.Keys <= old(at).Keys
      ensures forall i :: BelievedOf(live, at, i) ==
                          if i != id || id !in old(at) then BelievedOf(old(live), old(at), i)
                          else if after <= 0 then Absent else Rests(BelievedOf(old(live), old(at), id).loc, after)
    {
      if after <= 0 {
        Forget(id);
      } else {
        Resize(id, after);
      }
    }

    method Observe(t: BookTouch)
      modifies this`touch
      ensures touch == t
    {
      touch := t;
    }
  }

  // What is believed of order i after an event, given what is left of its order.
  function BelievedAfter(live: seq<Live>, at: Index, e: BookEvent, after: Qty, i: OrderId): Standing {
    match e.kind
    case Add => if i == e.orderId then Rests(Loc(e.side, e.price), e.qty) else BelievedOf(live, at, i)
    case Delete => if i == e.orderId then Absent else BelievedOf(live, at, i)
    case Replace =>
      if i == e.newId then Rests(Loc(e.side, e.price), e.qty) else if i == e.orderId then Absent
        else BelievedOf(live, at, i)
    case Clear => Absent
    case Aggress => BelievedOf(live, at, i)
    case _ =>
      if i != e.orderId || BelievedOf(live, at, i).Absent? then BelievedOf(live, at, i)
      else if after <= 0 then Absent else Rests(BelievedOf(live, at, i).loc, after)
  }

  // After an accepted event belief and book agree again.
  lemma AppliedAgrees(b: Book, lim: Limits, live: seq<Live>, at: Index, t: BookTouch, nextId: OrderId, e: BookEvent,
                      live': seq<Live>, at': Index)
    requires Together(live, at, t, b) && Emittable(e, live, at, t, nextId) && Apply(b, lim, e).error.Ok?
    requires forall i ::
             BelievedOf(live', at', i) == BelievedAfter(live, at, e, QtyOfSpec(Apply(b, lim, e).book, e.orderId), i)
    ensures Agrees(live', at', Apply(b, lim, e).book)
  {
    hide WellFormed, Apply, TouchIs, Indexed, QtyOfSpec, StandingIn;
    var b' := Apply(b, lim, e).book;
    AgreedOn(live, at, b, e.orderId);
    forall i ensures AgreesOn(live', at', b', i) {
      AgreedOn(live, at, b, i);
      match e.kind
      case Add => AddStands(b, lim, e, i);
      case Delete => DeleteStands(b, lim, e, i);
      case Reduce => CutAgrees(b, lim, live, at, e, i);
      case Execute => CutAgrees(b, lim, live, at, e, i);
      case Replace =>
        ReplaceStands(b, lim, e, i);
        SideStands(b, live, at, e.orderId);
      case Aggress => Unmatched(b, lim, e);
    }
  }

  lemma Unmatched(b: Book, lim: Limits, e: BookEvent)
    requires e.kind.Aggress?
    ensures Apply(b, lim, e).book == b
  {
  }

  lemma SideStands(b: Book, live: seq<Live>, at: Index, id: OrderId)
    requires Agrees(live, at, b) && id in b.index
    ensures id in at && at[id] < |live| && b.index[id].side == live[at[id]].side
  {
    AgreedOn(live, at, b, id);
  }

  lemma CutAgrees(b: Book, lim: Limits, live: seq<Live>, at: Index, e: BookEvent, i: OrderId)
    requires WellFormed(b) && Agrees(live, at, b) && (e.kind.Reduce? || e.kind.Execute?) && Apply(b, lim, e).error.Ok?
    ensures var b' := Apply(b, lim, e).book;
            StandingIn(b', i) == BelievedAfter(live, at, e, QtyOfSpec(b', e.orderId), i)
  {
    hide WellFormed, Agrees, ReduceOp;
    CutStands(b, lim, e, i);
    CutStands(b, lim, e, e.orderId);
    AgreedOn(live, at, b, i);
    AgreedOn(live, at, b, e.orderId);
    CutLeaves(b, lim, e);
  }

  // What is left of a cut order: nothing if it is gone, its size if it rests.
  lemma CutLeaves(b: Book, lim: Limits, e: BookEvent)
    requires WellFormed(b) && (e.kind.Reduce? || e.kind.Execute?) && Apply(b, lim, e).error.Ok?
    ensures var b' := Apply(b, lim, e).book;
            if e.orderId in b'.index then QtyOfSpec(b', e.orderId) > 0 else QtyOfSpec(b', e.orderId) == 0
  {
    hide ReduceOp;
    ApplyKeepsWellFormed(b, lim, e);
    var b' := Apply(b, lim, e).book;
    HeldIsIndexed(b', e.orderId);
    if e.orderId in b'.index {
      assert QueueOk(b', b'.index[e.orderId].side, b'.index[e.orderId].price);
    }
  }

  // ---- the closed loop ----

  // Generator and book agree on every order, and on the touch.
  ghost predicate InAgreement(g: FlowGenerator, book: OrderBook)
    requires book.ids.Valid()
    reads g, book.Owned
  {
    Together(g.live, g.at, g.touch, book.Book())
  }

  // One turn of the harness: draw, apply, tell the generator what became of it and
  // where the touch is. An event inside the window and the pool is accepted.
  method Turn(g: FlowGenerator, book: OrderBook) returns (e: BookEvent, r: BookError)
    requires g.Valid() && book.Valid() && g !in book.Owned && InAgreement(g, book)
    modifies g, book.Owned
    ensures g.Valid() && book.Valid()
    ensures Outcome(book.Book(), r) == Apply(old(book.Book()), book.Limits(), e)
    ensures Sensible(old(book.Book()), e) && (Fits(old(book.Book()), book.Limits(), e) ==> r.Ok?)
    ensures r.Ok? ==> InAgreement(g, book)
  {
    hide OrderBook.Valid, OrderBook.Book, WellFormed, Apply, Emittable, BelievedOf, BelievedAfter, Agrees, TouchIs,
         Indexed, Fits, Sensible, OrderMap.Valid;
    ghost var b, lim := book.Book(), book.Limits();
    e := g.Next();
    ghost var live, at := g.live, g.at;
    ApplyKeepsWellFormed(b, lim, e);
    EmittedIsSensible(b, live, at, g.touch, g.nextId, e);
    if Fits(b, lim, e) {
      EmittedIsAccepted(b, lim, live, at, g.touch, g.nextId, e);
    }
    r := book.ApplyEvent(e);
    var after := book.QtyOf(e.orderId);
    g.OnApplied(e, after);
    if r.Ok? {
      AppliedAgrees(b, lim, live, at, g.touch, g.nextId, e, g.live, g.at);
    }
    var t := TouchOf(book);
    g.Observe(t);
  }

  // Every event of the stream makes sense to the book it meets, and is accepted.
  ghost predicate AllAccepted(b: Book, lim: Limits, es: seq<BookEvent>) {
    forall k | 0 <= k < |es| :: AcceptedAt(b, lim, es, k)
  }

  ghost predicate AcceptedAt(b: Book, lim: Limits, es: seq<BookEvent>, k: nat)
    requires k < |es|
  {
    Sensible(Run(b, lim, es[..k]), es[k]) && Apply(Run(b, lim, es[..k]), lim, es[k]).error.Ok?
  }

  lemma AcceptedSnoc(b: Book, lim: Limits, es: seq<BookEvent>, e: BookEvent)
    requires AllAccepted(b, lim, es) && Sensible(Run(b, lim, es), e) && Apply(Run(b, lim, es), lim, e).error.Ok?
    ensures AllAccepted(b, lim, es + [e]) && Run(b, lim, es + [e]) == Apply(Run(b, lim, es), lim, e).book
  {
    hide Run, Apply, Sensible;
    RunSnoc(b, lim, es, e);
    var fs := es + [e];
    assert fs[..|es|] == es;
    forall k | 0 <= k < |fs| ensures AcceptedAt(b, lim, fs, k) {
      if k < |es| {
        assert AcceptedAt(b, lim, es, k) && fs[..k] == es[..k];
      }
    }
  }

  // For every sequence of draws: the book ends where the stream drawn takes it, and
  // accepts every event of it. The loop breaks off early only when an event leaves
  // the window or the pool; until then belief equals the book.
  method Drive(g: FlowGenerator, book: OrderBook, turns: nat)
    returns (accepted: nat, ghost stream: seq<BookEvent>, ghost refused: seq<BookEvent>)
    requires g.Valid() && book.Valid() && g !in book.Owned && InAgreement(g, book)
    modifies g, book.Owned
    ensures g.Valid() && book.Valid() && |stream| == accepted <= turns
    ensures AllAccepted(old(book.Book()), book.Limits(), stream)
    ensures accepted == turns ==>
            refused == [] && InAgreement(g, book) && book.Book() == Run(old(book.Book()), book.Limits(), stream)
    ensures accepted < turns ==>
            |refused| == 1
            && RefusedOutside(Run(old(book.Book()), book.Limits(), stream), book.Limits(), refused[0], book.Book())
  {
    hide OrderBook.Valid, OrderBook.Book, OrderBook.Limits, InAgreement, Apply, Fits, Sensible, Run, OrderMap.Valid,
         OrderMap.Contents, AllAccepted;
    ghost var b, lim := book.Book(), book.Limits();
    accepted, stream, refused := 0, [], [];
    NoneAccepted(b, lim);
    while accepted < turns
      invariant |stream| == accepted <= turns && refused == [] && g.Valid() && book.Valid() && InAgreement(g, book)
      invariant book.Limits() == lim && AllAccepted(b, lim, stream) && book.Book() == Run(b, lim, stream)
    {
      var e, r := Turn(g, book);
      if !r.Ok? {
        refused := [e];
        return;
      }
      AcceptedSnoc(b, lim, stream, e);
      accepted, stream := accepted + 1, stream + [e];
    }
  }

  // A sensible event that the book refused, because it did not fit.
  ghost predicate RefusedOutside(b: Book, lim: Limits, e: BookEvent, b': Book) {
    Sensible(b, e) && !Fits(b, lim, e) && !Apply(b, lim, e).error.Ok? && b' == Apply(b, lim, e).book
  }

  lemma NoneAccepted(b: Book, lim: Limits)
    ensures AllAccepted(b, lim, []) && Run(b, lim, []) == b
  {
  }
}
