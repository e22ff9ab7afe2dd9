// The Bitstamp decoder: one capture line in, at most three book events out. The
// line's fields are taken as already scanned; a field that is missing or does not
// parse is None.
module Bitstamp {
  import opened Types
  import opened FeedSpec
  import opened FeedStep

  const MAX_EVENTS := 3
  const ID_LENGTH := 48

  datatype Line = Line(
    event: string,
    hasData: bool,
    recvNs: Option<nat>,
    micros: Option<nat>,
    eventId: string,
    preEventId: string,
    id: Option<OrderId>,
    side: Option<Side>,
    price: Option<Ticks>,
    amount: Option<Qty>,
    traded: Option<Qty>,
    taker: Option<Side>)

  datatype Decoded = Decoded(
    ev: seq<BookEvent>,
    recvNs: Nanos,
    ts: Nanos,
    isTrade: bool,
    tradePrice: Ticks,
    tradeQty: Qty,
    taker: Side)

  const NOTHING := Decoded([], 0, 0, false, 0, 0, Bid)

  function KindOf(event: string): Option<MsgKind> {
    if event == "order_created" then Some(Created)
    else if event == "order_changed" then Some(Changed)
    else if event == "order_deleted" then Some(Deleted)
    else None
  }

  // The order message a line carries, if every field it needs is there.
  function MsgOf(l: Line): Option<Msg> {
    if !l.hasData || KindOf(l.event).None? || l.id.None? || l.side.None? || l.price.None? || l.amount.None? then None
    else Some(Msg(KindOf(l.event).value, l.id.value, l.side.value, l.price.value, l.amount.value, l.traded))
  }

  // Exchange time, in nanoseconds.
  function TimeOf(l: Line): Nanos {
    if l.micros.Some? then l.micros.value * 1000 else 0
  }

  class BitstampDecoder {
    const cfg: Config
    var live: LiveMap
    var seqNo: nat
    var lastEventId: string
    var chainGaps: nat
    var sizeViolations: nat
    var filledQty: Qty

    ghost predicate Valid()
      reads this
    {
      Banded(cfg, live)
    }

    constructor (cfg: Config)
      ensures Valid() && this.cfg == cfg && live == map[] && lastEventId == "" && seqNo == 0
    {
      this.cfg := cfg;
      live, seqNo, lastEventId, chainGaps, sizeViolations, filledQty := map[], 0, "", 0, 0, 0;
    }

    // A session starts afresh except for the counters.
    method ResetSession()
      modifies this`live, this`seqNo, this`lastEventId
      ensures Valid() && live == map[] && seqNo == 0 && lastEventId == ""
    {
      live, seqNo, lastEventId := map[], 0, "";
    }

    // The buffer holds three events; every caller has room, so none is dropped.
    method Emit(es: seq<BookEvent>, ts: Nanos, kind: EventType, m: Msg, s: Side, price: Ticks, qty: Qty)
      returns (r: seq<BookEvent>)
      requires |es| < MAX_EVENTS
      modifies this`seqNo
      ensures r == es + [Event(ts, seqNo, m, kind, s, price, qty)] && seqNo == old(seqNo) + 1
    {
      seqNo := seqNo + 1;
      r := es + [BookEvent(ts, seqNo, m.id, 0, price, qty, kind, s)];
    }

    // Held outside the band, held as marketable, or added.
    method OnCreated(m: Msg, ts: Nanos, t: BookTouch) returns (es: seq<BookEvent>)
      requires m.kind.Created?
      modifies this`live, this`seqNo
      ensures live == Successor(cfg, old(live), m, Marketable(m.side, m.price, t))
      ensures es == MessageEvents(cfg, old(live), m, Marketable(m.side, m.price, t), ts, old(seqNo))
              && seqNo == old(seqNo) + |es|
    {
      es := [];
      if !InBand(cfg, m.price) {
        live := live[m.id := OrderState(m.amount, m.price, m.side, true, false)];
        return;
      }
      if Marketable(m.side, m.price, t) {
        live := live[m.id := OrderState(m.amount, m.price, m.side, false, true)];
        return;
      }
      live := live[m.id := OrderState(m.amount, m.price, m.side, false, false)];
      es := Emit(es, ts, Add, m, m.side, m.price, m.amount);
    }

    // An order still held back as crossing says nothing until a message shows it no
    // longer crosses; then it rests, or is held outside the band.
    method OnPending(m: Msg, ts: Nanos, t: BookTouch) returns (es: seq<BookEvent>)
      requires !m.kind.Created? && m.id in live && live[m.id].pending && !live[m.id].suppressed
      modifies this`live, this`seqNo
      ensures live == Successor(cfg, old(live), m, Marketable(m.side, m.price, t))
      ensures es == MessageEvents(cfg, old(live), m, Marketable(m.side, m.price, t), ts, old(seqNo))
              && seqNo == old(seqNo) + |es|
    {
      es := [];
      if m.kind.Deleted? {
        live := Forgotten(live, m.id);
        return;
      }
      live := live[m.id := OrderState(m.amount, m.price, m.side, false, true)];
      if m.amount > 0 && !Marketable(m.side, m.price, t) {
        if InBand(cfg, m.price) {
          live := live[m.id := live[m.id].(pending := false)];
          es := Emit(es, ts, Add, m, m.side, m.price, m.amount);
        } else {
          live := live[m.id := live[m.id].(pending := false, suppressed := true)];
        }
      }
    }

    // The part of a resting order's change that traded, capped at what was believed
    // to rest.
    method TakeFill(m: Msg, ts: Nanos, st: OrderState) returns (es: seq<BookEvent>, st': OrderState)
      modifies this`seqNo, this`sizeViolations, this`filledQty
      ensures st' == Left(st, m) && es == FillEvents(st, m, ts, old(seqNo)) && seqNo == old(seqNo) + |es|
      ensures filledQty == old(filledQty) + TradedFrom(st, m)
      ensures sizeViolations == old(sizeViolations)
                + if m.traded.Some? && Max(0, m.traded.value) + m.amount > st.remaining then 1 else 0
    {
      es, st' := [], st;
      var traded := if m.traded.Some? then Max(0, m.traded.value) else 0;
      if m.traded.Some? && traded + m.amount > st.remaining {
        sizeViolations := sizeViolations + 1;
      }
      var fill := Min(traded, st.remaining);
      if fill > 0 {
        es := Emit(es, ts, Execute, m, st.side, st.price, fill);
        st' := st.(remaining := st.remaining - fill);
        filledQty := filledQty + fill;
      }
    }

    // What is left of a deleted order was cancelled, and the order is forgotten.
    method OnDeleted(es0: seq<BookEvent>, m: Msg, ts: Nanos, st: OrderState) returns (es: seq<BookEvent>)
      requires |es0| <= 1
      modifies this`live, this`seqNo
      ensures live == Forgotten(old(live), m.id)
      ensures es == es0 + DeleteEvents(st, m, ts, old(seqNo)) && seqNo - |es| == old(seqNo) - |es0|
    {
      es := es0;
      if st.remaining > 0 {
        es := Emit(es, ts, Delete, m, st.side, st.price, st.remaining);
      }
      live := Forgotten(live, m.id);
    }

    // The order leaves its old price, and the decision a create gets is made afresh
    // at the new one.
    method OnRepriced(es0: seq<BookEvent>, m: Msg, ts: Nanos, t: BookTouch, st: OrderState) returns (es: seq<BookEvent>)
      requires |es0| <= 1
      modifies this`live, this`seqNo
      ensures live == old(live)[m.id := Decided(cfg, m, Marketable(m.side, m.price, t))]
      ensures es == es0 + RepriceEvents(cfg, st, m, Marketable(m.side, m.price, t), ts, old(seqNo))
      ensures seqNo - |es| == old(seqNo) - |es0|
    {
      es := Emit(es0, ts, Delete, m, st.side, st.price, st.remaining);
      if !InBand(cfg, m.price) {
        live := live[m.id := OrderState(m.amount, m.price, m.side, true, false)];
      } else if Marketable(m.side, m.price, t) {
        live := live[m.id := OrderState(m.amount, m.price, m.side, false, true)];
      } else {
        es := Emit(es, ts, Add, m, m.side, m.price, m.amount);
        live := live[m.id := OrderState(m.amount, m.price, m.side, false, false)];
      }
    }

    // Shrinking keeps the queue place; growing gives it up, as a delete and an add.
    method OnResized(es0: seq<BookEvent>, m: Msg, ts: Nanos, st: OrderState) returns (es: seq<BookEvent>)
      requires |es0| <= 1
      modifies this`live, this`seqNo
      ensures live == old(live)[m.id := Resized(st, m)]
      ensures es == es0 + ResizeEvents(st, m, ts, old(seqNo)) && seqNo - |es| == old(seqNo) - |es0|
    {
      es := es0;
      if m.amount < st.remaining {
        es := Emit(es, ts, Reduce, m, st.side, st.price, st.remaining - m.amount);
        live := live[m.id := st.(remaining := m.amount)];
      } else if m.amount > st.remaining {
        es := Emit(es, ts, Delete, m, st.side, st.price, st.remaining);
        es := Emit(es, ts, Add, m, m.side, m.price, m.amount);
        live := live[m.id := st.(remaining := m.amount, side := m.side)];
      } else {
        live := live[m.id := st];
      }
    }

    // A change or delete of an order that rests, or has just been emptied.
    method OnResting(m: Msg, ts: Nanos, t: BookTouch) returns (es: seq<BookEvent>)
      requires !m.kind.Created? && Tracked(live, m.id)
      modifies this`live, this`seqNo, this`sizeViolations, this`filledQty
      ensures live == Successor(cfg, old(live), m, Marketable(m.side, m.price, t))
      ensures es == MessageEvents(cfg, old(live), m, Marketable(m.side, m.price, t), ts, old(seqNo))
              && seqNo == old(seqNo) + |es|
      ensures filledQty == old(filledQty) + FillOf(old(live), m)
      ensures sizeViolations == old(sizeViolations) + if Oversized(old(live), m) then 1 else 0
    {
      hide Marketable, DeleteEvents, RepriceEvents, ResizeEvents, Decided, TradedFrom;
      var st;
      es, st := TakeFill(m, ts, live[m.id]);
      if m.kind.Deleted? {
        es := OnDeleted(es, m, ts, st);
      } else if m.price != st.price {
        es := OnRepriced(es, m, ts, t, st);
      } else {
        es := OnResized(es, m, ts, st);
      }
    }

    // One order message against what is known of its order. Nothing is made up about
    // an order never seen, and an order outside the band is only forgotten.
    method OnMessage(m: Msg, ts: Nanos, t: BookTouch) returns (es: seq<BookEvent>)
      requires Valid()
      modifies this`live, this`seqNo, this`sizeViolations, this`filledQty
      ensures Valid() && live == Successor(cfg, old(live), m, Marketable(m.side, m.price, t))
      ensures es == MessageEvents(cfg, old(live), m, Marketable(m.side, m.price, t), ts, old(seqNo))
              && seqNo == old(seqNo) + |es|
      ensures filledQty == old(filledQty) + FillOf(old(live), m)
      ensures sizeViolations == old(sizeViolations) + if !m.kind.Created? && Oversized(old(live), m) then 1 else 0
    {
      hide Marketable, FillEvents, LeftEvents, RestEvents, Decided, TradedFrom, Banded;
      StaysBanded(cfg, live, m, Marketable(m.side, m.price, t));
      es := [];
      if m.kind.Created? {
        es := OnCreated(m, ts, t);
      } else if m.id !in live {
        assert live == Forgotten(live, m.id);
      } else if live[m.id].suppressed {
        assert live == live[m.id := live[m.id]];
        if m.kind.Deleted? {
          live := Forgotten(live, m.id);
        }
      } else if live[m.id].pending {
        es := OnPending(m, ts, t);
      } else {
        es := OnResting(m, ts, t);
      }
    }

    // Counts a gap whenever a message's predecessor is not the id remembered.
    method FollowChain(l: Line)
      modifies this`lastEventId, this`chainGaps
      ensures lastEventId == if l.eventId == "" then old(lastEventId) else Clipped(l.eventId)
      ensures chainGaps == old(chainGaps) + if BreaksChain(old(lastEventId), l) then 1 else 0
    {
      if l.eventId != "" {
        if |lastEventId| != 0 && (|l.preEventId| != |lastEventId| || l.preEventId[..|lastEventId|] != lastEventId) {
          chainGaps := chainGaps + 1;
        }
        lastEventId := l.eventId[..Min(|l.eventId|, ID_LENGTH)];
      }
      assert |l.preEventId| == |lastEventId| ==> l.preEventId[..|lastEventId|] == l.preEventId;
    }

    // One line: rejected exactly when it cannot be read as anything, and otherwise
    // what its order message, if it has one, leaves believed and asks of the book.
    method DecodeLine(l: Line, t: BookTouch) returns (ok: bool, out: Decoded)
      requires Valid()
      modifies this
      ensures Valid() && |out.ev| <= MAX_EVENTS && seqNo == old(seqNo) + |out.ev|
      ensures ok <==> !Unusable(l)
      ensures MsgOf(l).None? ==> live == old(live) && out.ev == [] && filledQty == old(filledQty)
      ensures MsgOf(l).Some? ==>
                var m := MsgOf(l).value;
                var crosses := Marketable(m.side, m.price, t);
                && live == Successor(cfg, old(live), m, crosses)
                && out.ev == MessageEvents(cfg, old(live), m, crosses, TimeOf(l), old(seqNo))
                && filledQty == old(filledQty) + FillOf(old(live), m)
      ensures chainGaps == old(chainGaps) + GapAt(old(lastEventId), l)
      ensures lastEventId == Remembered(old(lastEventId), l)
      ensures out.isTrade <==> l.event == "trade" && l.hasData
      ensures out.isTrade ==>
                && out.ev == [] && live == old(live) && out.recvNs == l.recvNs.GetOr(0) && out.ts == TimeOf(l)
                && out.tradePrice == l.price.GetOr(0) && out.tradeQty == l.amount.GetOr(0)
                && out.taker == l.taker.GetOr(Bid)
      ensures MsgOf(l).Some? ==> out.recvNs == l.recvNs.GetOr(0) && out.ts == TimeOf(l)
    {
      hide Successor, MessageEvents, FillOf, Oversized, BreaksChain, Banded, Marketable, KindOf;
      NoOrders();
      out := NOTHING;
      if l.event == "" {
        return false, out;
      }
      if IsControl(l.event) {
        ControlIsNoOrder(l.event);
        return true, out;
      }
      if !l.hasData {
        return false, out;
      }
      if l.recvNs.Some? {
        out := out.(recvNs := l.recvNs.value);
      }
      if l.micros.Some? {
        out := out.(ts := TimeOf(l));
      }
      if l.event == "trade" {
        return true, AsTrade(out, l);
      }
      var kind := KindOf(l.event);
      if kind.None? {
        return true, out;
      }
      FollowChain(l);
      if l.id.None? || l.side.None? || l.price.None? || l.amount.None? {
        return false, out;
      }
      var m := Msg(kind.value, l.id.value, l.side.value, l.price.value, l.amount.value, l.traded);
      EventsShape(cfg, live, m, Marketable(m.side, m.price, t), out.ts, seqNo);
      var es := OnMessage(m, out.ts, t);
      return true, out.(ev := es);
    }
  }

  // A trade report moves nothing by itself: the orders it concerns have messages
  // of their own.
  function AsTrade(out: Decoded, l: Line): Decoded {
    out.(isTrade := true,
         tradePrice := if l.price.Some? then l.price.value else 0,
         tradeQty := if l.amount.Some? then l.amount.value else 0,
         taker := if l.taker.Some? then l.taker.value else Bid)
  }

  lemma NoOrders()
    ensures KindOf("").None? && KindOf("trade").None?
  {
  }

  predicate IsControl(event: string) {
    |event| >= 4 && event[..4] == "bts:"
  }

  lemma ControlIsNoOrder(event: string)
    requires IsControl(event)
    ensures KindOf(event).None? && event != "trade"
  {
    assert event[0] == event[..4][0] == 'b';
  }

  predicate Unusable(l: Line) {
    || l.event == ""
    || (!IsControl(l.event) && !l.hasData)
    || (KindOf(l.event).Some? && (l.id.None? || l.side.None? || l.price.None? || l.amount.None?))
  }

  lemma UnusableSaysNothing(l: Line)
    ensures Unusable(l) ==> MsgOf(l).None?
  {
  }

  predicate BreaksChain(last: string, l: Line) {
    l.eventId != "" && last != "" && l.preEventId != last
  }

  predicate IsOrderLine(l: Line) {
    l.hasData && KindOf(l.event).Some?
  }

  // Only so much of an event's id is kept.
  function Clipped(id: string): string {
    id[..Min(|id|, ID_LENGTH)]
  }

  function Remembered(last: string, l: Line): string {
    if IsOrderLine(l) && l.eventId != "" then Clipped(l.eventId) else last
  }

  function GapAt(last: string, l: Line): nat {
    if IsOrderLine(l) && BreaksChain(last, l) then 1 else 0
  }

  function RememberedAfter(last: string, ls: seq<Line>): string {
    if ls == [] then last else Remembered(RememberedAfter(last, ls[..|ls| - 1]), ls[|ls| - 1])
  }

  function GapsIn(last: string, ls: seq<Line>): nat {
    if ls == [] then 0
    else
      GapsIn(last, ls[..|ls| - 1]) + GapAt(RememberedAfter(last, ls[..|ls| - 1]), ls[|ls| - 1])
  }

  lemma GapsSnoc(last: string, ls: seq<Line>, k: nat)
    requires k < |ls|
    ensures GapsIn(last, ls[..k + 1]) == GapsIn(last, ls[..k]) + GapAt(RememberedAfter(last, ls[..k]), ls[k])
    ensures RememberedAfter(last, ls[..k + 1]) == Remembered(RememberedAfter(last, ls[..k]), ls[k])
  {
    assert ls[..k + 1][..k] == ls[..k];
  }

  // More size left, or stayed, than the order was believed to have.
  predicate Oversized(live: LiveMap, m: Msg) {
    m.traded.Some? && Tracked(live, m.id) && Max(0, m.traded.value) + m.amount > live[m.id].remaining
  }
}
