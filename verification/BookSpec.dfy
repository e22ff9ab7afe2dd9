// What a limit order book means: per side, a queue at each occupied price, and
// an index from order id to side and price. The operations here are the ones
// the reference book performs; the fast book is proved to perform the same.
//
// `Limits` is the only difference between the two books: the reference book is
// unlimited, the fast book has a price window and a fixed number of orders, and
// tests its faults in a different order.
module BookSpec {
  import opened Types
  import opened Queues

  datatype Loc = Loc(side: Side, price: Ticks)

  type Ladder = map<Ticks, Queue>

  datatype Book = Book(bids: Ladder, asks: Ladder, index: map<OrderId, Loc>)

  datatype Limits = Unlimited | Limited(base: Ticks, window: nat, capacity: nat)

  datatype Outcome = Outcome(book: Book, error: BookError)

  const EMPTY_BOOK := Book(map[], map[], map[])

  function LadderOf(b: Book, s: Side): Ladder {
    if s.Bid? then b.bids else b.asks
  }

  function QueueAt(b: Book, s: Side, p: Ticks): Queue {
    if p in LadderOf(b, s) then LadderOf(b, s)[p] else []
  }

  // A ladder holds only occupied prices.
  function Placed(l: Ladder, p: Ticks, q: Queue): Ladder {
    if q == [] then map k | k in l && k != p :: l[k] else l[p := q]
  }

  function WithQueue(b: Book, s: Side, p: Ticks, q: Queue): Book {
    if s.Bid? then b.(bids := Placed(b.bids, p, q)) else b.(asks := Placed(b.asks, p, q))
  }

  predicate InWindow(lim: Limits, p: Ticks) {
    lim.Limited? ==> lim.base <= p < lim.base + lim.window
  }

  // An order at `price` would trade with resting price `p` of the other side.
  predicate Through(s: Side, price: Ticks, p: Ticks) {
    if s.Bid? then price >= p else price <= p
  }

  ghost predicate Crossing(b: Book, s: Side, price: Ticks) {
    exists p :: p in LadderOf(b, Opposite(s)) && Through(s, price, p)
  }

  // ---- the operations ----

  ghost function AddError(b: Book, lim: Limits, id: OrderId, s: Side, price: Ticks, qty: Qty): BookError {
    if qty <= 0 then BadQuantity
    else if lim.Unlimited? then
      if id in b.index then DuplicateOrder
      else if Crossing(b, s, price) then CrossedBook
      else Ok
    else
      if !InWindow(lim, price) then PriceOutOfWindow
      else if |b.index| >= lim.capacity then PoolExhausted
      else if Crossing(b, s, price) then CrossedBook
      else if id in b.index then DuplicateOrder
      else Ok
  }

  function Appended(b: Book, s: Side, price: Ticks, e: Entry): Book {
    WithQueue(b.(index := b.index[e.id := Loc(s, price)]), s, price, QueueAt(b, s, price) + [e])
  }

  ghost function AddOp(b: Book, lim: Limits, id: OrderId, s: Side, price: Ticks, qty: Qty, mine: bool): Outcome {
    var err := AddError(b, lim, id, s, price, qty);
    Outcome(if err.Ok? then Appended(b, s, price, Entry(id, qty, mine)) else b, err)
  }

  function QueueOf(b: Book, id: OrderId): Queue {
    if id in b.index then QueueAt(b, b.index[id].side, b.index[id].price) else []
  }

  function EntryOf(b: Book, id: OrderId): Entry
    requires Holds(QueueOf(b, id), id)
  {
    QueueOf(b, id)[IndexOf(QueueOf(b, id), id)]
  }

  function Removed(b: Book, id: OrderId): Book
    requires Holds(QueueOf(b, id), id)
  {
    var loc, q := b.index[id], QueueOf(b, id);
    WithQueue(b.(index := b.index - {id}), loc.side, loc.price, Without(q, IndexOf(q, id)))
  }

  function Reduced(b: Book, id: OrderId, cut: Qty): Book
    requires Holds(QueueOf(b, id), id)
  {
    var loc, q := b.index[id], QueueOf(b, id);
    WithQueue(b, loc.side, loc.price, Shrunk(q, IndexOf(q, id), cut))
  }

  function RemoveOp(b: Book, id: OrderId): Outcome {
    if !Holds(QueueOf(b, id), id) then Outcome(b, UnknownOrder)
    else Outcome(Removed(b, id), Ok)
  }

  // A partial cancel and a fill change the book alike; both keep queue priority.
  function ReduceOp(b: Book, id: OrderId, cut: Qty): Outcome {
    if !Holds(QueueOf(b, id), id) then Outcome(b, UnknownOrder)
    else if cut <= 0 || cut > EntryOf(b, id).qty then Outcome(b, BadQuantity)
    else if cut == EntryOf(b, id).qty then Outcome(Removed(b, id), Ok)
    else Outcome(Reduced(b, id, cut), Ok)
  }

  // The old order is gone even when the new one is refused.
  ghost function ReplaceOp(b: Book, lim: Limits, oldId: OrderId, newId: OrderId, price: Ticks, qty: Qty): Outcome {
    if !Holds(QueueOf(b, oldId), oldId) then Outcome(b, UnknownOrder)
    else AddOp(Removed(b, oldId), lim, newId, b.index[oldId].side, price, qty, EntryOf(b, oldId).mine)
  }

  ghost function Apply(b: Book, lim: Limits, e: BookEvent): Outcome {
    match e.kind
    case Add => AddOp(b, lim, e.orderId, e.side, e.price, e.qty, false)
    case Reduce => ReduceOp(b, e.orderId, e.qty)
    case Delete => RemoveOp(b, e.orderId)
    case Execute => ReduceOp(b, e.orderId, e.qty)
    case Replace => ReplaceOp(b, lim, e.orderId, e.newId, e.price, e.qty)
    case Clear => Outcome(EMPTY_BOOK, Ok)
    case Aggress => Outcome(b, Ok)
  }

  // ---- the invariant ----

  ghost predicate QueueOk(b: Book, s: Side, p: Ticks) {
    var q := QueueAt(b, s, p);
    && (p in LadderOf(b, s) ==> q != [])
    && DistinctIds(q)
    && AllPositive(q)
    && forall k | 0 <= k < |q| :: q[k].id in b.index && b.index[q[k].id] == Loc(s, p)
  }

  ghost predicate IndexOk(b: Book, id: OrderId) {
    id in b.index ==> Holds(QueueOf(b, id), id)
  }

  predicate BidBelowAsk(b: Book, p: Ticks, p': Ticks) {
    p in b.bids && p' in b.asks ==> p < p'
  }

  // The book is neither crossed nor locked.
  ghost predicate Uncrossed(b: Book) {
    forall p, p' :: BidBelowAsk(b, p, p')
  }

  ghost predicate WellFormed(b: Book) {
    && (forall s, p :: QueueOk(b, s, p))
    && (forall id :: IndexOk(b, id))
    && Uncrossed(b)
  }

  lemma HeldIsIndexed(b: Book, id: OrderId)
    requires WellFormed(b)
    ensures Holds(QueueOf(b, id), id) <==> id in b.index
  {
    assert IndexOk(b, id);
  }

  // An order rests in at most one queue: the one the index names.
  lemma HeldOnlyThere(b: Book, s: Side, p: Ticks, id: OrderId)
    requires WellFormed(b)
    ensures Holds(QueueAt(b, s, p), id) <==> id in b.index && b.index[id] == Loc(s, p)
  {
    assert QueueOk(b, s, p);
    assert IndexOk(b, id);
  }

  lemma SomeoneAt(b: Book, s: Side, p: Ticks) returns (id: OrderId)
    requires WellFormed(b) && p in LadderOf(b, s)
    ensures id in b.index && b.index[id] == Loc(s, p)
  {
    assert QueueOk(b, s, p);
    id := QueueAt(b, s, p)[0].id;
  }

  lemma HeldInLadder(b: Book, id: OrderId)
    requires id in b.index && Holds(QueueOf(b, id), id)
    ensures b.index[id].price in LadderOf(b, b.index[id].side)
  {
  }

  lemma QueueAfter(b: Book, s: Side, p: Ticks, q: Queue, s': Side, p': Ticks)
    ensures QueueAt(WithQueue(b, s, p, q), s', p') == if s' == s && p' == p then q else QueueAt(b, s', p')
    ensures p' in LadderOf(WithQueue(b, s, p, q), s')
            <==> if s' == s && p' == p then q != [] else p' in LadderOf(b, s')
  {
  }

  // b1 is b with queue q at (s, p), as far as (s', p') can tell.
  predicate ReplacedAt(b: Book, b1: Book, s: Side, p: Ticks, q: Queue, s': Side, p': Ticks) {
    && QueueAt(b1, s', p') == (if s' == s && p' == p then q else QueueAt(b, s', p'))
    && (p' in LadderOf(b1, s') <==> if s' == s && p' == p then q != [] else p' in LadderOf(b, s'))
  }

  ghost predicate Replaced(b: Book, b1: Book, s: Side, p: Ticks, q: Queue) {
    forall s', p' :: ReplacedAt(b, b1, s, p, q, s', p')
  }

  // A book that differs queue by queue as WithQueue does is what WithQueue gives.
  lemma ReplacedIs(b: Book, b1: Book, s: Side, p: Ticks, q: Queue)
    requires Replaced(b, b1, s, p, q)
    ensures b1 == WithQueue(b.(index := b1.index), s, p, q)
  {
    var b2 := WithQueue(b.(index := b1.index), s, p, q);
    forall t, p'
      ensures p' in LadderOf(b1, t) <==> p' in LadderOf(b2, t)
      ensures p' in LadderOf(b1, t) ==> LadderOf(b1, t)[p'] == LadderOf(b2, t)[p']
    {
      assert ReplacedAt(b, b1, s, p, q, t, p');
      QueueAfter(b.(index := b1.index), s, p, q, t, p');
    }
    assert LadderOf(b1, Bid) == LadderOf(b2, Bid);
    assert LadderOf(b1, Ask) == LadderOf(b2, Ask);
  }

  lemma WithoutKey(m: map<OrderId, Loc>, m': map<OrderId, Loc>, gone: OrderId)
    requires forall id: OrderId :: id in m' <==> id in m && id != gone
    requires forall id: OrderId :: id in m' ==> m'[id] == m[id]
    ensures m' == m - {gone}
  {
  }

  lemma AppendedIs(b: Book, b1: Book, s: Side, p: Ticks, e: Entry)
    requires Replaced(b, b1, s, p, QueueAt(b, s, p) + [e]) && b1.index == b.index[e.id := Loc(s, p)]
    ensures b1 == Appended(b, s, p, e)
  {
    ReplacedIs(b, b1, s, p, QueueAt(b, s, p) + [e]);
  }

  lemma RemovedIs(b: Book, b1: Book, id: OrderId)
    requires Holds(QueueOf(b, id), id) && b1.index == b.index - {id}
    requires Replaced(b, b1, b.index[id].side, b.index[id].price,
                      Without(QueueOf(b, id), IndexOf(QueueOf(b, id), id)))
    ensures b1 == Removed(b, id)
  {
    ReplacedIs(b, b1, b.index[id].side, b.index[id].price, Without(QueueOf(b, id), IndexOf(QueueOf(b, id), id)));
  }

  lemma ReducedIs(b: Book, b1: Book, id: OrderId, cut: Qty)
    requires Holds(QueueOf(b, id), id) && b1.index == b.index
    requires Replaced(b, b1, b.index[id].side, b.index[id].price,
                      Shrunk(QueueOf(b, id), IndexOf(QueueOf(b, id), id), cut))
    ensures b1 == Reduced(b, id, cut)
  {
    ReplacedIs(b, b1, b.index[id].side, b.index[id].price, Shrunk(QueueOf(b, id), IndexOf(QueueOf(b, id), id), cut));
  }

  lemma AppendedWellFormed(b: Book, s: Side, price: Ticks, e: Entry)
    requires WellFormed(b) && e.id !in b.index && e.qty > 0 && !Crossing(b, s, price)
    ensures WellFormed(Appended(b, s, price, e))
  {
    var b' := Appended(b, s, price, e);
    forall s', p ensures QueueOk(b', s', p) {
      assert QueueOk(b, s', p);
      QueueAfter(b.(index := b'.index), s, price, QueueAt(b, s, price) + [e], s', p);
    }
    forall id ensures IndexOk(b', id) {
      assert IndexOk(b, id);
      IndexAppend(QueueAt(b, s, price), e, id);
      if id in b'.index {
        var loc := b'.index[id];
        QueueAfter(b.(index := b'.index), s, price, QueueAt(b, s, price) + [e], loc.side, loc.price);
      }
    }
    forall p, p' ensures BidBelowAsk(b', p, p') {
      assert BidBelowAsk(b, p, p');
      assert Through(s, price, if s.Bid? then p' else p) || !Through(s, price, if s.Bid? then p' else p);
    }
  }

  lemma RemovedQueueOk(b: Book, id: OrderId, s: Side, p: Ticks)
    requires Holds(QueueOf(b, id), id) && QueueOk(b, b.index[id].side, b.index[id].price) && QueueOk(b, s, p)
    ensures QueueOk(Removed(b, id), s, p)
  {
    hide Without;
    var loc, q := b.index[id], QueueOf(b, id);
    var k := IndexOf(q, id);
    WithoutKeeps(q, k);
    QueueAfter(b.(index := b.index - {id}), loc.side, loc.price, Without(q, k), s, p);
  }

  lemma RemovedIndexOk(b: Book, id: OrderId, i: OrderId)
    requires Holds(QueueOf(b, id), id) && QueueOk(b, b.index[id].side, b.index[id].price) && IndexOk(b, i)
    ensures IndexOk(Removed(b, id), i)
  {
    var loc, q := b.index[id], QueueOf(b, id);
    var k := IndexOf(q, id);
    HoldsWithout(q, k, i);
    if i in b.index && i != id {
      QueueAfter(b.(index := b.index - {id}), loc.side, loc.price, Without(q, k), b.index[i].side, b.index[i].price);
    }
  }

  lemma RemovedWellFormed(b: Book, id: OrderId)
    requires WellFormed(b) && Holds(QueueOf(b, id), id)
    ensures WellFormed(Removed(b, id))
  {
    var b' := Removed(b, id);
    assert QueueOk(b, b.index[id].side, b.index[id].price);
    forall s, p ensures QueueOk(b', s, p) {
      assert QueueOk(b, s, p);
      RemovedQueueOk(b, id, s, p);
    }
    forall i ensures IndexOk(b', i) {
      assert IndexOk(b, i);
      RemovedIndexOk(b, id, i);
    }
    LaddersShrink(b, id);
    forall p, p' ensures BidBelowAsk(b', p, p') {
      assert BidBelowAsk(b, p, p');
    }
  }

  lemma LaddersShrink(b: Book, id: OrderId)
    requires Holds(QueueOf(b, id), id)
    ensures Removed(b, id).bids.Keys <= b.bids.Keys && Removed(b, id).asks.Keys <= b.asks.Keys
  {
  }

  lemma ReducedWellFormed(b: Book, id: OrderId, cut: Qty)
    requires WellFormed(b) && Holds(QueueOf(b, id), id) && 0 < cut < EntryOf(b, id).qty
    ensures WellFormed(Reduced(b, id, cut))
  {
    var loc, q := b.index[id], QueueOf(b, id);
    var k := IndexOf(q, id);
    var q' := Shrunk(q, k, cut);
    var b' := Reduced(b, id, cut);
    assert QueueOk(b, loc.side, loc.price);
    forall s, p ensures QueueOk(b', s, p) {
      assert QueueOk(b, s, p);
      QueueAfter(b, loc.side, loc.price, q', s, p);
      assert forall j | 0 <= j < |q'| :: q'[j].id == q[j].id;
    }
    forall i ensures IndexOk(b', i) {
      assert IndexOk(b, i);
      IndexShrunk(q, k, cut, i);
      if i in b'.index {
        var l := b'.index[i];
        QueueAfter(b, loc.side, loc.price, q', l.side, l.price);
      }
    }
    assert b'.bids.Keys == b.bids.Keys && b'.asks.Keys == b.asks.Keys;
    forall p, p' ensures BidBelowAsk(b', p, p') {
      assert BidBelowAsk(b, p, p');
    }
  }

  lemma AddKeepsWellFormed(b: Book, lim: Limits, id: OrderId, s: Side, price: Ticks, qty: Qty, mine: bool)
    requires WellFormed(b)
    ensures WellFormed(AddOp(b, lim, id, s, price, qty, mine).book)
  {
    if AddError(b, lim, id, s, price, qty).Ok? {
      AppendedWellFormed(b, s, price, Entry(id, qty, mine));
    }
  }

  lemma ReduceKeepsWellFormed(b: Book, id: OrderId, cut: Qty)
    requires WellFormed(b)
    ensures WellFormed(ReduceOp(b, id, cut).book)
  {
    if Holds(QueueOf(b, id), id) && 0 < cut <= EntryOf(b, id).qty {
      if cut == EntryOf(b, id).qty {
        RemovedWellFormed(b, id);
      } else {
        ReducedWellFormed(b, id, cut);
      }
    }
  }

  // Every operation, accepted or refused, leaves a book that is well formed and
  // neither crossed nor locked.
  lemma ApplyKeepsWellFormed(b: Book, lim: Limits, e: BookEvent)
    requires WellFormed(b)
    ensures WellFormed(Apply(b, lim, e).book)
  {
    match e.kind
    case Add => AddKeepsWellFormed(b, lim, e.orderId, e.side, e.price, e.qty, false);
    case Reduce => ReduceKeepsWellFormed(b, e.orderId, e.qty);
    case Execute => ReduceKeepsWellFormed(b, e.orderId, e.qty);
    case Delete =>
      if Holds(QueueOf(b, e.orderId), e.orderId) {
        RemovedWellFormed(b, e.orderId);
      }
    case Replace =>
      if Holds(QueueOf(b, e.orderId), e.orderId) {
        RemovedWellFormed(b, e.orderId);
        var s, mine := b.index[e.orderId].side, EntryOf(b, e.orderId).mine;
        AddKeepsWellFormed(Removed(b, e.orderId), lim, e.newId, s, e.price, e.qty, mine);
      }
    case Clear => EmptyWellFormed();
    case Aggress =>
  }

  lemma EmptyWellFormed()
    ensures WellFormed(EMPTY_BOOK)
  {
  }

  // ---- runs ----

  ghost function Run(b: Book, lim: Limits, es: seq<BookEvent>): Book
    decreases |es|
  {
    if es == [] then b else Run(Apply(b, lim, es[0]).book, lim, es[1..])
  }

  lemma RunNone(b: Book, lim: Limits)
    ensures Run(b, lim, []) == b
  {
  }

  lemma RunOne(b: Book, lim: Limits, e: BookEvent)
    ensures Run(b, lim, [e]) == Apply(b, lim, e).book
  {
    assert [e][1..] == [];
  }

  lemma {:induction false} RunConcat(b: Book, lim: Limits, es: seq<BookEvent>, fs: seq<BookEvent>)
    ensures Run(b, lim, es + fs) == Run(Run(b, lim, es), lim, fs)
    decreases |es|
  {
    if es == [] {
      assert es + fs == fs;
    } else {
      assert (es + fs)[1..] == es[1..] + fs;
      RunConcat(Apply(b, lim, es[0]).book, lim, es[1..], fs);
    }
  }

  lemma RunSnoc(b: Book, lim: Limits, es: seq<BookEvent>, e: BookEvent)
    ensures Run(b, lim, es + [e]) == Apply(Run(b, lim, es), lim, e).book
  {
    RunConcat(b, lim, es, [e]);
    RunOne(Run(b, lim, es), lim, e);
  }

  lemma RunStep(b: Book, lim: Limits, es: seq<BookEvent>, k: nat)
    requires k < |es|
    ensures Run(b, lim, es[..k + 1]) == Apply(Run(b, lim, es[..k]), lim, es[k]).book
  {
    assert es[..k + 1] == es[..k] + [es[k]];
    RunSnoc(b, lim, es[..k], es[k]);
  }

  lemma {:induction false} RunKeepsWellFormed(b: Book, lim: Limits, es: seq<BookEvent>)
    requires WellFormed(b)
    ensures WellFormed(Run(b, lim, es))
    decreases |es|
  {
    if es != [] {
      ApplyKeepsWellFormed(b, lim, es[0]);
      RunKeepsWellFormed(Apply(b, lim, es[0]).book, lim, es[1..]);
    }
  }
}
