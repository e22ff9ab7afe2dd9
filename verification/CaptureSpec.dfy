// What a capture line says, whoever printed it: the texts that carry an order message
// or a trade, stated with the printer of JSON objects and the values of digits and
// decimals; and the feed's own layout of such a line, which is one of them.
module CaptureSpec {
  import opened Types
  import opened FeedSpec
  import opened JsonSpec
  import Decimal

  // An order message with what surrounds it on its line.
  datatype Report = Report(m: Msg, micros: nat, recvNs: nat, eventId: string, preEventId: string)

  datatype Trade = Trade(price: Ticks, qty: Qty, taker: Side, micros: nat, recvNs: nat)

  // ---- members and their texts ----

  // The first member under that key is this text, as a string or bare.
  predicate Holds(ms: Members, key: string, text: string) {
    FirstMatch(ms, key) == Print(Str(text))
    || (text != "" && text[0] != '"' && FirstMatch(ms, key) == Print(Atom(text)))
  }

  predicate Lacks(ms: Members, key: string) {
    FirstMatch(ms, key) == ""
  }

  // Digits of that number, which 64 bits can hold.
  ghost predicate HoldsNumber(ms: Members, key: string, n: nat) {
    n <= Decimal.UINT64_MAX && exists t :: Holds(ms, key, t) && IsNumber(t, n)
  }

  predicate IsNumber(t: string, n: nat) {
    t != "" && Decimal.AllDigits(t) && Decimal.Number(t) == n
  }

  // A decimal that is v at that scale.
  ghost predicate HoldsDecimal(ms: Members, key: string, v: int, scale: nat) {
    scale <= 18 && exists t :: Holds(ms, key, t) && IsDecimal(t, v, scale)
  }

  ghost predicate IsDecimal(t: string, v: int, scale: nat) {
    exists p :: Decimal.Represents(p, t, scale) && Decimal.ValueOf(p, scale) == v
  }

  // ---- the names the feed uses ----

  function EventName(k: MsgKind): string {
    match k
    case Created => "order_created"
    case Changed => "order_changed"
    case Deleted => "order_deleted"
  }

  function SideCode(s: Side): string {
    match s
    case Bid => "0"
    case Ask => "1"
  }

  // ---- lines ----

  // A printed object with an object among its members, anything around it.
  datatype Capture = Capture(lead: string, ws: string, line: Members, dataWs: string, data: Members, tail: string)

  function TextOf(c: Capture): string {
    c.lead + (Print(Obj(c.ws, c.line)) + c.tail)
  }

  predicate WellPrinted(c: Capture) {
    && AllWs(c.lead) && AllWs(c.ws) && MembersOk(c.line) && AllWs(c.dataWs) && MembersOk(c.data)
    && FirstMatch(c.line, "data") == Print(Obj(c.dataWs, c.data))
  }

  ghost predicate SaysOrder(c: Capture, r: Report, priceDecimals: nat, qtyDecimals: nat) {
    && Holds(c.line, "event", EventName(r.m.kind)) && HoldsNumber(c.line, "_recv_ns", r.recvNs)
    && Holds(c.line, "event_id", r.eventId) && Holds(c.line, "pre_event_id", r.preEventId)
    && HoldsNumber(c.data, "microtimestamp", r.micros)
    && (HoldsNumber(c.data, "id_str", r.m.id) || (Lacks(c.data, "id_str") && HoldsNumber(c.data, "id", r.m.id)))
    && Holds(c.data, "order_type", SideCode(r.m.side))
    && HoldsDecimal(c.data, "price_str", r.m.price, priceDecimals)
    && HoldsDecimal(c.data, "amount_str", r.m.amount, qtyDecimals)
    && match r.m.traded
       case None => Lacks(c.data, "amount_traded")
       case Some(q) => HoldsDecimal(c.data, "amount_traded", q, qtyDecimals)
  }

  ghost predicate SaysTrade(c: Capture, t: Trade, priceDecimals: nat, qtyDecimals: nat) {
    && Holds(c.line, "event", "trade") && HoldsNumber(c.line, "_recv_ns", t.recvNs)
    && HoldsNumber(c.data, "microtimestamp", t.micros) && Holds(c.data, "type", SideCode(t.taker))
    && HoldsDecimal(c.data, "price_str", t.price, priceDecimals)
    && HoldsDecimal(c.data, "amount_str", t.qty, qtyDecimals)
  }

  ghost predicate CarriesOrder(text: string, r: Report, priceDecimals: nat, qtyDecimals: nat) {
    exists c :: text == TextOf(c) && WellPrinted(c) && SaysOrder(c, r, priceDecimals, qtyDecimals)
  }

  ghost predicate CarriesTrade(text: string, t: Trade, priceDecimals: nat, qtyDecimals: nat) {
    exists c :: text == TextOf(c) && WellPrinted(c) && SaysTrade(c, t, priceDecimals, qtyDecimals)
  }

  // ---- what a lookup finds in them ----

  // A member of the object, without quotes if it is a string; empty if absent.
  function Field(json: string, key: string): string {
    Unquoted(Lookup(json, key))
  }

  lemma HeldIsField(lead: string, ws: string, ms: Members, tail: string, key: string, t: string)
    requires AllWs(lead) && AllWs(ws) && MembersOk(ms) && Holds(ms, key, t)
    ensures Field(lead + (Print(Obj(ws, ms)) + tail), key) == t
  {
    hide Lookup, FirstMatch, MembersOk;
    FindsFirst(lead, ws, ms, tail, key);
    assert Quoted(t)[1..|Quoted(t)| - 1] == t;
  }

  lemma LackedIsEmpty(lead: string, ws: string, ms: Members, tail: string, key: string)
    requires AllWs(lead) && AllWs(ws) && MembersOk(ms) && Lacks(ms, key)
    ensures Field(lead + (Print(Obj(ws, ms)) + tail), key) == ""
  {
    hide Lookup, FirstMatch, MembersOk;
    FindsFirst(lead, ws, ms, tail, key);
  }

  lemma DataIs(c: Capture)
    requires WellPrinted(c)
    ensures Lookup(TextOf(c), "data") == Print(Obj(c.dataWs, c.data))
  {
    hide Lookup, FirstMatch, MembersOk, Print;
    FindsFirst(c.lead, c.ws, c.line, c.tail, "data");
  }

  // A key of the line.
  lemma LineHas(c: Capture, key: string, t: string)
    requires WellPrinted(c) && Holds(c.line, key, t)
    ensures Field(TextOf(c), key) == t
  {
    hide Field, FirstMatch, MembersOk, Print, Holds;
    HeldIsField(c.lead, c.ws, c.line, c.tail, key, t);
  }

  // A key of its data.
  lemma DataHas(c: Capture, key: string, t: string)
    requires WellPrinted(c) && Holds(c.data, key, t)
    ensures Field(Print(Obj(c.dataWs, c.data)), key) == t
  {
    hide Field, FirstMatch, MembersOk, Print, Holds;
    Bare(Print(Obj(c.dataWs, c.data)));
    HeldIsField("", c.dataWs, c.data, "", key, t);
  }

  lemma DataLacks(c: Capture, key: string)
    requires WellPrinted(c) && Lacks(c.data, key)
    ensures Field(Print(Obj(c.dataWs, c.data)), key) == ""
  {
    hide Field, FirstMatch, MembersOk, Print, Lacks;
    Bare(Print(Obj(c.dataWs, c.data)));
    LackedIsEmpty("", c.dataWs, c.data, "", key);
  }

  lemma Bare(t: string)
    ensures "" + (t + "") == t
  {
  }

  lemma NumberIsRead(t: string, n: nat)
    requires IsNumber(t, n) && n <= Decimal.UINT64_MAX
    ensures Decimal.U64Of(t) == Some(n)
  {
  }

  lemma DecimalIsRead(t: string, v: int, scale: nat)
    requires IsDecimal(t, v, scale) && scale <= 18
    ensures Decimal.DecimalOf(t, scale) == Some(v)
  {
    hide Decimal.Split, Decimal.Represents, Decimal.ValueOf;
    Decimal.AcceptsSplit(t, scale);
  }

  // ---- the feed's own layout ----

  function Put(key: string, v: Value, rest: Members): Members {
    Member("", key, "", "", v, "", rest)
  }

  function Price(v: int, decimals: nat): Value {
    Str(Decimal.Text(Decimal.Printed(v, decimals)))
  }

  function Size(v: Option<int>, decimals: nat, key: string, rest: Members): Members {
    if v.None? then rest else Put(key, Price(v.value, decimals), rest)
  }

  function DataMembers(r: Report, priceDecimals: nat, qtyDecimals: nat): Members {
    Put("id", Atom(Decimal.Digits(r.m.id)),
    Put("id_str", Str(Decimal.Digits(r.m.id)),
    Put("order_type", Atom(SideCode(r.m.side)),
    Put("microtimestamp", Str(Decimal.Digits(r.micros)),
    Put("amount_str", Price(r.m.amount, qtyDecimals),
    Size(r.m.traded, qtyDecimals, "amount_traded",
    Put("price_str", Price(r.m.price, priceDecimals), NoMembers)))))))
  }

  function LineMembers(r: Report, priceDecimals: nat, qtyDecimals: nat): Members {
    Put("data", Obj("", DataMembers(r, priceDecimals, qtyDecimals)),
    Put("channel", Str("live_orders"),
    Put("event", Str(EventName(r.m.kind)),
    Put("event_id", Str(r.eventId),
    Put("pre_event_id", Str(r.preEventId),
    Put("_recv_ns", Atom(Decimal.Digits(r.recvNs)), NoMembers))))))
  }

  function PrintedLine(r: Report, priceDecimals: nat, qtyDecimals: nat): Capture {
    Capture("", "", LineMembers(r, priceDecimals, qtyDecimals), "", DataMembers(r, priceDecimals, qtyDecimals), "")
  }

  predicate Narrow(v: int) {
    -(INT64_MAX as int) <= v <= INT64_MAX
  }

  // Everything fits its field.
  predicate Printable(r: Report) {
    && r.m.id <= Decimal.UINT64_MAX && r.micros <= Decimal.UINT64_MAX && r.recvNs <= Decimal.UINT64_MAX
    && Narrow(r.m.price) && Narrow(r.m.amount) && (r.m.traded.Some? ==> Narrow(r.m.traded.value))
    && BodyOk(r.eventId) && BodyOk(r.preEventId)
  }

  predicate Unescaped(t: string) {
    forall i | 0 <= i < |t| :: t[i] != '"' && t[i] != '\\'
  }

  lemma {:induction false} UnescapedIsBody(t: string)
    requires Unescaped(t)
    ensures BodyOk(t)
  {
    if t != "" {
      UnescapedIsBody(t[1..]);
    }
  }

  lemma DigitsPrint(n: nat)
    ensures var t := Decimal.Digits(n); BodyOk(t) && AtomOk(t) && t[0] != '"' && IsNumber(t, n)
  {
    hide Decimal.Digits, Decimal.Number, BodyOk;
    Decimal.NumberOfDigits(n);
    UnescapedIsBody(Decimal.Digits(n));
  }

  lemma PricePrints(v: int, scale: nat)
    requires Narrow(v)
    ensures var t := Decimal.Text(Decimal.Printed(v, scale)); BodyOk(t) && IsDecimal(t, v, scale)
  {
    hide Decimal.Digits, Decimal.LastDigits, Decimal.Represents, Decimal.ValueOf, BodyOk;
    Decimal.PrintedReads(v, scale);
    UnescapedIsBody(Decimal.Text(Decimal.Printed(v, scale)));
  }

  lemma EventPrints(k: MsgKind)
    ensures BodyOk(EventName(k))
  {
    hide BodyOk;
    UnescapedIsBody(EventName(k));
  }

  lemma CodePrints(s: Side)
    ensures AtomOk(SideCode(s)) && SideCode(s) != "" && SideCode(s)[0] != '"'
  {
  }

  lemma DataKeysPrint()
    ensures BodyOk("id") && BodyOk("id_str") && BodyOk("order_type") && BodyOk("microtimestamp") && BodyOk("amount_str")
    ensures BodyOk("amount_traded") && BodyOk("price_str")
  {
    hide BodyOk;
    UnescapedIsBody("id");
    UnescapedIsBody("id_str");
    UnescapedIsBody("order_type");
    UnescapedIsBody("microtimestamp");
    UnescapedIsBody("amount_str");
    UnescapedIsBody("amount_traded");
    UnescapedIsBody("price_str");
  }

  lemma LineKeysPrint()
    ensures BodyOk("data") && BodyOk("channel") && BodyOk("event") && BodyOk("event_id") && BodyOk("pre_event_id")
    ensures BodyOk("_recv_ns") && BodyOk("live_orders")
  {
    hide BodyOk;
    UnescapedIsBody("data");
    UnescapedIsBody("channel");
    UnescapedIsBody("event");
    UnescapedIsBody("event_id");
    UnescapedIsBody("pre_event_id");
    UnescapedIsBody("_recv_ns");
    UnescapedIsBody("live_orders");
  }

  lemma PutIs(key: string, v: Value, rest: Members)
    ensures forall k :: FirstMatch(Put(key, v, rest), k) == if k == key then Print(v) else FirstMatch(rest, k)
    ensures BodyOk(key) && JsonSpec.Ok(v) && MembersOk(rest) ==> MembersOk(Put(key, v, rest))
  {
    hide Print, JsonSpec.Ok, BodyOk;
  }

  lemma SizeIs(v: Option<int>, decimals: nat, key: string, rest: Members)
    requires v.Some? ==> Narrow(v.value)
    ensures forall k :: k != key ==> FirstMatch(Size(v, decimals, key, rest), k) == FirstMatch(rest, k)
    ensures Lacks(rest, key) ==>
              if v.None? then Lacks(Size(v, decimals, key, rest), key)
              else Holds(Size(v, decimals, key, rest), key, Decimal.Text(Decimal.Printed(v.value, decimals)))
    ensures BodyOk(key) && MembersOk(rest) ==> MembersOk(Size(v, decimals, key, rest))
  {
    hide Print, BodyOk, FirstMatch, MembersOk, Decimal.Text, Decimal.Printed;
    if v.Some? {
      PutIs(key, Price(v.value, decimals), rest);
      PricePrints(v.value, decimals);
    }
  }

  // The data of a printed line says what the message says.
  lemma PrintedData(r: Report, priceDecimals: nat, qtyDecimals: nat)
    requires Printable(r)
    ensures var ms := DataMembers(r, priceDecimals, qtyDecimals);
            && MembersOk(ms) && Holds(ms, "id_str", Decimal.Digits(r.m.id))
            && Holds(ms, "order_type", SideCode(r.m.side))
            && Holds(ms, "microtimestamp", Decimal.Digits(r.micros))
            && Holds(ms, "price_str", Decimal.Text(Decimal.Printed(r.m.price, priceDecimals)))
            && Holds(ms, "amount_str", Decimal.Text(Decimal.Printed(r.m.amount, qtyDecimals)))
            && match r.m.traded
               case None => Lacks(ms, "amount_traded")
               case Some(q) => Holds(ms, "amount_traded", Decimal.Text(Decimal.Printed(q, qtyDecimals)))
  {
    hide Decimal.Digits, Decimal.Printed, Decimal.Text, BodyOk, AtomOk, SideCode, EventName, IsNumber, IsDecimal,
         FirstMatch, MembersOk, Size, Put, Print;
    DataKeysPrint();
    DigitsPrint(r.m.id);
    DigitsPrint(r.micros);
    CodePrints(r.m.side);
    PricePrints(r.m.price, priceDecimals);
    PricePrints(r.m.amount, qtyDecimals);
    NoMembersIs("amount_traded");
    var d6 := Put("price_str", Price(r.m.price, priceDecimals), NoMembers);
    PutIs("price_str", Price(r.m.price, priceDecimals), NoMembers);
    var d5 := Size(r.m.traded, qtyDecimals, "amount_traded", d6);
    SizeIs(r.m.traded, qtyDecimals, "amount_traded", d6);
    var d4 := Put("amount_str", Price(r.m.amount, qtyDecimals), d5);
    PutIs("amount_str", Price(r.m.amount, qtyDecimals), d5);
    var d3 := Put("microtimestamp", Str(Decimal.Digits(r.micros)), d4);
    PutIs("microtimestamp", Str(Decimal.Digits(r.micros)), d4);
    var d2 := Put("order_type", Atom(SideCode(r.m.side)), d3);
    PutIs("order_type", Atom(SideCode(r.m.side)), d3);
    var d1 := Put("id_str", Str(Decimal.Digits(r.m.id)), d2);
    PutIs("id_str", Str(Decimal.Digits(r.m.id)), d2);
    PutIs("id", Atom(Decimal.Digits(r.m.id)), d1);
  }

  lemma NoMembersIs(key: string)
    ensures MembersOk(NoMembers) && Lacks(NoMembers, key)
  {
  }

  lemma PrintedAround(r: Report, priceDecimals: nat, qtyDecimals: nat)
    requires Printable(r) && MembersOk(DataMembers(r, priceDecimals, qtyDecimals))
    ensures var ms := LineMembers(r, priceDecimals, qtyDecimals);
            && WellPrinted(PrintedLine(r, priceDecimals, qtyDecimals)) && Holds(ms, "event", EventName(r.m.kind))
            && Holds(ms, "event_id", r.eventId) && Holds(ms, "pre_event_id", r.preEventId)
            && Holds(ms, "_recv_ns", Decimal.Digits(r.recvNs))
  {
    hide Decimal.Digits, DataMembers, BodyOk, AtomOk, EventName, IsNumber, FirstMatch, MembersOk, Put, Print;
    LineKeysPrint();
    DigitsPrint(r.recvNs);
    EventPrints(r.m.kind);
    NoMembersIs("");
    var d5 := Put("_recv_ns", Atom(Decimal.Digits(r.recvNs)), NoMembers);
    PutIs("_recv_ns", Atom(Decimal.Digits(r.recvNs)), NoMembers);
    var d4 := Put("pre_event_id", Str(r.preEventId), d5);
    PutIs("pre_event_id", Str(r.preEventId), d5);
    var d3 := Put("event_id", Str(r.eventId), d4);
    PutIs("event_id", Str(r.eventId), d4);
    var d2 := Put("event", Str(EventName(r.m.kind)), d3);
    PutIs("event", Str(EventName(r.m.kind)), d3);
    var d1 := Put("channel", Str("live_orders"), d2);
    PutIs("channel", Str("live_orders"), d2);
    PutIs("data", Obj("", DataMembers(r, priceDecimals, qtyDecimals)), d1);
  }

  // Printing a message in that layout makes a line that carries it.
  lemma PrintedCarries(r: Report, priceDecimals: nat, qtyDecimals: nat)
    requires Printable(r) && priceDecimals <= 18 && qtyDecimals <= 18
    ensures CarriesOrder(TextOf(PrintedLine(r, priceDecimals, qtyDecimals)), r, priceDecimals, qtyDecimals)
  {
    hide Decimal.Digits, Decimal.Printed, Decimal.Text, Print, EventName, SideCode, WellPrinted, IsNumber, IsDecimal,
         TextOf, DataMembers, LineMembers, Holds, Lacks;
    PrintedData(r, priceDecimals, qtyDecimals);
    PrintedAround(r, priceDecimals, qtyDecimals);
    DigitsPrint(r.recvNs);
    DigitsPrint(r.micros);
    DigitsPrint(r.m.id);
    PricePrints(r.m.price, priceDecimals);
    PricePrints(r.m.amount, qtyDecimals);
    if r.m.traded.Some? {
      PricePrints(r.m.traded.value, qtyDecimals);
    }
    assert SaysOrder(PrintedLine(r, priceDecimals, qtyDecimals), r, priceDecimals, qtyDecimals);
  }
}
