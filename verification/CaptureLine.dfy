// A raw capture line, scanned into the fields the Bitstamp decoder works on.
module CaptureLines {
  import opened Types
  import opened Bitstamp
  import opened FeedSpec
  import opened CaptureSpec
  import JsonSpec
  import Json
  import Decimal

  function SideOf(t: string): Option<Side> {
    if t == "0" then Some(Bid) else if t == "1" then Some(Ask) else None
  }

  // The string form first: the number may be past what a double holds.
  function IdText(data: string): string {
    if Field(data, "id_str") != "" then Field(data, "id_str") else Field(data, "id")
  }

  function DataOf(text: string): string {
    JsonSpec.Lookup(text, "data")
  }

  predicate IsObject(data: string) {
    data != "" && data[0] == '{'
  }

  // What the decoder takes a line of text to say.
  function LineOf(text: string, priceDecimals: nat, qtyDecimals: nat): Line {
    var data := DataOf(text);
    Line(Field(text, "event"), IsObject(data),
         Decimal.U64Of(Field(text, "_recv_ns")), Decimal.U64Of(Field(data, "microtimestamp")),
         Field(text, "event_id"), Field(text, "pre_event_id"),
         Decimal.U64Of(IdText(data)), SideOf(Field(data, "order_type")),
         Decimal.DecimalOf(Field(data, "price_str"), priceDecimals),
         Decimal.DecimalOf(Field(data, "amount_str"), qtyDecimals),
         Decimal.DecimalOf(Field(data, "amount_traded"), qtyDecimals),
         SideOf(Field(data, "type")))
  }

  // ---- reading back what a line says ----

  lemma NumberReadAt(json: string, ms: JsonSpec.Members, key: string, n: nat)
    requires HoldsNumber(ms, key, n) && forall t | Holds(ms, key, t) :: Field(json, key) == t
    ensures Decimal.U64Of(Field(json, key)) == Some(n) && Field(json, key) != ""
  {
    hide Field, Holds, Decimal.U64Of;
    var t :| Holds(ms, key, t) && IsNumber(t, n);
    NumberIsRead(t, n);
  }

  lemma DecimalReadAt(json: string, ms: JsonSpec.Members, key: string, v: int, scale: nat)
    requires HoldsDecimal(ms, key, v, scale) && forall t | Holds(ms, key, t) :: Field(json, key) == t
    ensures Decimal.DecimalOf(Field(json, key), scale) == Some(v)
  {
    hide Field, Holds, Decimal.DecimalOf, IsDecimal;
    var t :| Holds(ms, key, t) && IsDecimal(t, v, scale);
    DecimalIsRead(t, v, scale);
  }

  lemma SideIsRead(s: Side)
    ensures SideOf(SideCode(s)) == Some(s)
  {
  }

  lemma EventIsRead(k: MsgKind)
    ensures KindOf(EventName(k)) == Some(k) && EventName(k) != "" && EventName(k) != "trade"
  {
  }

  // Whatever a line's keys hold is what its fields are.
  lemma FieldsAre(c: Capture)
    requires WellPrinted(c)
    ensures forall key, t | Holds(c.line, key, t) :: Field(TextOf(c), key) == t
    ensures forall key, t | Holds(c.data, key, t) :: Field(DataOf(TextOf(c)), key) == t
    ensures forall key | Lacks(c.data, key) :: Field(DataOf(TextOf(c)), key) == ""
    ensures IsObject(DataOf(TextOf(c)))
  {
    hide WellPrinted, Holds, Lacks, Field, TextOf, JsonSpec.Lookup;
    DataIs(c);
    PrintedIsObject(c);
    forall key, t | Holds(c.line, key, t) ensures Field(TextOf(c), key) == t {
      LineHas(c, key, t);
    }
    forall key, t | Holds(c.data, key, t) ensures Field(DataOf(TextOf(c)), key) == t {
      DataHas(c, key, t);
    }
    forall key | Lacks(c.data, key) ensures Field(DataOf(TextOf(c)), key) == "" {
      DataLacks(c, key);
    }
  }

  lemma PrintedIsObject(c: Capture)
    ensures IsObject(JsonSpec.Print(JsonSpec.Obj(c.dataWs, c.data)))
  {
  }

  lemma EmptyIsNone(scale: nat)
    ensures Decimal.DecimalOf("", scale) == None
  {
    Decimal.EmptyIsNone("", scale);
  }

  // Every line that carries an order message, however it is laid out, reads as that
  // message, at its time.
  lemma OrderIsRead(text: string, r: Report, priceDecimals: nat, qtyDecimals: nat)
    requires CarriesOrder(text, r, priceDecimals, qtyDecimals)
    ensures var l := LineOf(text, priceDecimals, qtyDecimals);
            && MsgOf(l) == Some(r.m) && TimeOf(l) == r.micros * 1000 && l.recvNs == Some(r.recvNs)
            && l.eventId == r.eventId && l.preEventId == r.preEventId && !Unusable(l) && l.event != "trade"
  {
    hide WellPrinted, Field, Holds, Lacks, HoldsNumber, HoldsDecimal, DataOf, IsObject, Decimal.U64Of,
         Decimal.DecimalOf, SideOf, KindOf, EventName, SideCode, TextOf;
    var c :| text == TextOf(c) && WellPrinted(c) && SaysOrder(c, r, priceDecimals, qtyDecimals);
    FieldsAre(c);
    var data := DataOf(text);
    EventIsRead(r.m.kind);
    SideIsRead(r.m.side);
    NumberReadAt(text, c.line, "_recv_ns", r.recvNs);
    NumberReadAt(data, c.data, "microtimestamp", r.micros);
    if HoldsNumber(c.data, "id_str", r.m.id) {
      NumberReadAt(data, c.data, "id_str", r.m.id);
    } else {
      NumberReadAt(data, c.data, "id", r.m.id);
    }
    DecimalReadAt(data, c.data, "price_str", r.m.price, priceDecimals);
    DecimalReadAt(data, c.data, "amount_str", r.m.amount, qtyDecimals);
    match r.m.traded
    case None => EmptyIsNone(qtyDecimals);
    case Some(q) => DecimalReadAt(data, c.data, "amount_traded", q, qtyDecimals);
  }

  lemma TradeIsRead(text: string, t: Trade, priceDecimals: nat, qtyDecimals: nat)
    requires CarriesTrade(text, t, priceDecimals, qtyDecimals)
    ensures var l := LineOf(text, priceDecimals, qtyDecimals);
            && l.event == "trade" && l.hasData && TimeOf(l) == t.micros * 1000 && l.recvNs == Some(t.recvNs)
            && l.price == Some(t.price) && l.amount == Some(t.qty) && l.taker == Some(t.taker) && !Unusable(l)
  {
    hide WellPrinted, Field, Holds, Lacks, HoldsNumber, HoldsDecimal, DataOf, IsObject, Decimal.U64Of,
         Decimal.DecimalOf, SideOf, SideCode, TextOf;
    var c :| text == TextOf(c) && WellPrinted(c) && SaysTrade(c, t, priceDecimals, qtyDecimals);
    FieldsAre(c);
    var data := DataOf(text);
    SideIsRead(t.taker);
    NumberReadAt(text, c.line, "_recv_ns", t.recvNs);
    NumberReadAt(data, c.data, "microtimestamp", t.micros);
    DecimalReadAt(data, c.data, "price_str", t.price, priceDecimals);
    DecimalReadAt(data, c.data, "amount_str", t.qty, qtyDecimals);
  }

  // Printing an order message in the feed's layout and reading the line gives it back.
  lemma PrintedIsRead(r: Report, priceDecimals: nat, qtyDecimals: nat)
    requires Printable(r) && priceDecimals <= 18 && qtyDecimals <= 18
    ensures var l := LineOf(TextOf(PrintedLine(r, priceDecimals, qtyDecimals)), priceDecimals, qtyDecimals);
            && MsgOf(l) == Some(r.m) && TimeOf(l) == r.micros * 1000 && l.recvNs == Some(r.recvNs)
            && l.eventId == r.eventId && l.preEventId == r.preEventId && !Unusable(l)
  {
    hide LineOf, MsgOf, TimeOf, Unusable, PrintedLine, Printable, CarriesOrder;
    PrintedCarries(r, priceDecimals, qtyDecimals);
    OrderIsRead(TextOf(PrintedLine(r, priceDecimals, qtyDecimals)), r, priceDecimals, qtyDecimals);
  }

  // ---- scanning ----

  method ReadField(json: string, key: string) returns (t: string)
    ensures t == Field(json, key)
  {
    var from, to := Json.FindScalar(json, key);
    t := json[from..to];
  }

  method ReadU64(json: string, key: string) returns (r: Option<nat>)
    ensures r == Decimal.U64Of(Field(json, key))
  {
    var t := ReadField(json, key);
    r := Decimal.ParseU64(t);
  }

  method ReadDecimal(json: string, key: string, scale: nat) returns (r: Option<int>)
    ensures r == Decimal.DecimalOf(Field(json, key), scale)
  {
    var t := ReadField(json, key);
    r := Decimal.ParseDecimal(t, scale);
    Decimal.DecimalOfIs(t, scale, r);
  }

  method ReadSide(json: string, key: string) returns (r: Option<Side>)
    ensures r == SideOf(Field(json, key))
  {
    var t := ReadField(json, key);
    r := SideOf(t);
  }

  method ReadId(data: string) returns (r: Option<nat>)
    ensures r == Decimal.U64Of(IdText(data))
  {
    var t := ReadField(data, "id_str");
    if t == "" {
      t := ReadField(data, "id");
    }
    r := Decimal.ParseU64(t);
  }

  // The fields, looked up in the line's own text or in its data object's.
  method ScanLine(text: string, priceDecimals: nat, qtyDecimals: nat) returns (l: Line)
    ensures l == LineOf(text, priceDecimals, qtyDecimals)
    ensures forall r | CarriesOrder(text, r, priceDecimals, qtyDecimals) ::
              MsgOf(l) == Some(r.m) && TimeOf(l) == r.micros * 1000 && l.recvNs == Some(r.recvNs)
  {
    hide Field, MsgOf, TimeOf, Unusable, CarriesOrder, IdText, SideOf, Decimal.U64Of, Decimal.DecimalOf,
         JsonSpec.Lookup;
    var from, to := Json.Find(text, "data");
    var data := text[from..to];
    var event := ReadField(text, "event");
    var recv := ReadU64(text, "_recv_ns");
    var micros := ReadU64(data, "microtimestamp");
    var eventId := ReadField(text, "event_id");
    var preEventId := ReadField(text, "pre_event_id");
    var id := ReadId(data);
    var side := ReadSide(data, "order_type");
    var price := ReadDecimal(data, "price_str", priceDecimals);
    var amount := ReadDecimal(data, "amount_str", qtyDecimals);
    var traded := ReadDecimal(data, "amount_traded", qtyDecimals);
    var taker := ReadSide(data, "type");
    l := Line(event, IsObject(data), recv, micros, eventId, preEventId, id, side, price, amount, traded, taker);
    forall r | CarriesOrder(text, r, priceDecimals, qtyDecimals)
      ensures MsgOf(l) == Some(r.m) && TimeOf(l) == r.micros * 1000 && l.recvNs == Some(r.recvNs)
    {
      OrderIsRead(text, r, priceDecimals, qtyDecimals);
    }
  }

  // The whole of a line's decoding, from its text to its book events: whatever order
  // message the text carries, its successor belief and its events; a trade is only
  // reported.
  method DecodeText(dec: BitstampDecoder, text: string, priceDecimals: nat, qtyDecimals: nat, t: BookTouch)
    returns (ok: bool, out: Decoded)
    requires dec.Valid()
    modifies dec
    ensures dec.Valid() && |out.ev| <= MAX_EVENTS
    ensures ok <==> !Unusable(LineOf(text, priceDecimals, qtyDecimals))
    ensures var l := LineOf(text, priceDecimals, qtyDecimals);
            match MsgOf(l)
            case None => dec.live == old(dec.live) && out.ev == []
            case Some(m) =>
              var crosses := Marketable(m.side, m.price, t);
              && dec.live == FeedStep.Successor(dec.cfg, old(dec.live), m, crosses)
              && out.ev == FeedStep.MessageEvents(dec.cfg, old(dec.live), m, crosses, TimeOf(l), old(dec.seqNo))
    ensures forall r | CarriesOrder(text, r, priceDecimals, qtyDecimals) ::
              var crosses := Marketable(r.m.side, r.m.price, t);
              && ok && !out.isTrade && out.ts == r.micros * 1000 && out.recvNs == r.recvNs
              && dec.live == FeedStep.Successor(dec.cfg, old(dec.live), r.m, crosses)
              && out.ev == FeedStep.MessageEvents(dec.cfg, old(dec.live), r.m, crosses, r.micros * 1000, old(dec.seqNo))
    ensures forall d | CarriesTrade(text, d, priceDecimals, qtyDecimals) ::
              && ok && out == Decoded([], d.recvNs, d.micros * 1000, true, d.price, d.qty, d.taker)
              && dec.live == old(dec.live)
  {
    hide LineOf, MsgOf, TimeOf, Unusable, BreaksChain, CarriesOrder, CarriesTrade, FeedStep.Successor,
         FeedStep.MessageEvents;
    var l := ScanLine(text, priceDecimals, qtyDecimals);
    ok, out := dec.DecodeLine(l, t);
    forall r | CarriesOrder(text, r, priceDecimals, qtyDecimals)
      ensures MsgOf(l) == Some(r.m) && TimeOf(l) == r.micros * 1000 && l.recvNs == Some(r.recvNs)
              && !Unusable(l) && l.event != "trade"
    {
      OrderIsRead(text, r, priceDecimals, qtyDecimals);
    }
    forall d | CarriesTrade(text, d, priceDecimals, qtyDecimals)
      ensures l.event == "trade" && l.hasData && TimeOf(l) == d.micros * 1000 && l.recvNs == Some(d.recvNs)
              && l.price == Some(d.price) && l.amount == Some(d.qty) && l.taker == Some(d.taker) && !Unusable(l)
    {
      TradeIsRead(text, d, priceDecimals, qtyDecimals);
    }
  }
}
