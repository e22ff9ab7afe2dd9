// The limited and the unlimited book agree, and what a whole run of feed
// events and API calls does to the queue position of an order that rests through it.
module BookRuns {
  import opened Types
  import opened Queues
  import opened BookSpec
  import opened BookViews

  // ---- the two books agree ----

  // The event stays inside the window and leaves the pool a slot to use.
  ghost predicate Fits(b: Book, lim: Limits, e: BookEvent) {
    && (e.kind.Add? || e.kind.Replace? ==> InWindow(lim, e.price))
    && (e.kind.Add? && lim.Limited? ==> |b.index| < lim.capacity)
    && (e.kind.Replace? && lim.Limited? ==> |b.index| <= lim.capacity)
  }

  // What a book is asked to do: apply a feed event, place an order of ours, or
  // cancel an order through the API, whose other calls do what the events of their
  // names do.
  datatype Op = Feed(e: BookEvent) | Quote(id: OrderId, side: Side, price: Ticks, qty: Qty) | Pull(id: OrderId)

  ghost function Do(b: Book, lim: Limits, op: Op): Outcome {
    match op
    case Feed(e) => Apply(b, lim, e)
    case Quote(id, s, price, qty) => AddOp(b, lim, id, s, price, qty, true)
    case Pull(id) => RemoveOp(b, id)
  }

  ghost function DoAll(b: Book, lim: Limits, ops: seq<Op>): Book
    decreases |ops|
  {
    if ops == [] then b else DoAll(Do(b, lim, ops[0]).book, lim, ops[1..])
  }

  lemma {:induction false} DoSnoc(b: Book, lim: Limits, ops: seq<Op>, k: nat)
    requires k <= |ops|
    ensures k == 0 ==> DoAll(b, lim, ops[..k]) == b
    ensures k < |ops| ==> DoAll(b, lim, ops[..k + 1]) == Do(DoAll(b, lim, ops[..k]), lim, ops[k]).book
    decreases |ops|
  {
    hide Do;
    if 0 < k < |ops| {
      DoSnoc(Do(b, lim, ops[0]).book, lim, ops[1..], k - 1);
      assert ops[..k][1..] == ops[1..][..k - 1] && ops[..k + 1][1..] == ops[1..][..k];
    } else if k < |ops| {
      assert ops[..1] == [ops[0]] && ops[..1][1..] == [];
    }
  }

  lemma DoKeepsWellFormed(b: Book, lim: Limits, op: Op)
    requires WellFormed(b)
    ensures WellFormed(Do(b, lim, op).book)
  {
    hide WellFormed, AddOp;
    match op
    case Feed(e) => ApplyKeepsWellFormed(b, lim, e);
    case Quote(id, s, price, qty) => AddKeepsWellFormed(b, lim, id, s, price, qty, true);
    case Pull(id) =>
      if Holds(QueueOf(b, id), id) {
        RemovedWellFormed(b, id);
      }
  }

  ghost predicate OpFits(b: Book, lim: Limits, op: Op) {
    match op
    case Feed(e) => Fits(b, lim, e)
    case Quote(id, s, price, qty) => InWindow(lim, price) && (lim.Limited? ==> |b.index| < lim.capacity)
    case Pull(id) => true
  }

  // Only when an add is at once a duplicate and crossing do the codes differ.
  ghost predicate BothFaults(b: Book, op: Op) {
    match op
    case Quote(id, s, price, qty) => id in b.index && Crossing(b, s, price)
    case Pull(id) => false
    case Feed(e) =>
      match e.kind
      case Add => e.orderId in b.index && Crossing(b, e.side, e.price)
      case Replace =>
        Holds(QueueOf(b, e.orderId), e.orderId)
        && var b' := Removed(b, e.orderId);
           e.newId in b'.index && Crossing(b', b.index[e.orderId].side, e.price)
      case _ => false
  }

  function QtyAsked(op: Op): Qty {
    match op
    case Feed(e) => e.qty
    case Quote(id, s, price, qty) => qty
    case Pull(id) => 0
  }

  // Inside its window and below its capacity, the limited book accepts exactly
  // what the unlimited one accepts and moves to the same state; the error codes
  // agree unless the operation has both faults.
  lemma LimitsAreInvisible(b: Book, lim: Limits, op: Op)
    requires WellFormed(b) && OpFits(b, lim, op)
    ensures Do(b, lim, op).error.Ok? <==> Do(b, Unlimited, op).error.Ok?
    ensures Do(b, lim, op).book == Do(b, Unlimited, op).book
    ensures !BothFaults(b, op) ==> Do(b, lim, op) == Do(b, Unlimited, op)
    ensures BothFaults(b, op) && lim.Limited? && QtyAsked(op) > 0 ==>
              Do(b, lim, op).error == CrossedBook && Do(b, Unlimited, op).error == DuplicateOrder
  {
    hide AddOp, Removed, Crossing, Holds;
    match op
    case Quote(id, s, price, qty) => LimitsOnAdd(b, lim, id, s, price, qty, true);
    case Pull(id) =>
    case Feed(e) =>
      if e.kind.Add? {
        LimitsOnAdd(b, lim, e.orderId, e.side, e.price, e.qty, false);
      } else if e.kind.Replace? && Holds(QueueOf(b, e.orderId), e.orderId) {
        HeldIsIndexed(b, e.orderId);
        RemovedIsOneFewer(b, e.orderId);
        var s := b.index[e.orderId].side;
        LimitsOnAdd(Removed(b, e.orderId), lim, e.newId, s, e.price, e.qty, EntryOf(b, e.orderId).mine);
      }
  }

  // Adding where there is room: the limits can only change which fault is named.
  lemma LimitsOnAdd(b: Book, lim: Limits, id: OrderId, s: Side, price: Ticks, qty: Qty, mine: bool)
    requires InWindow(lim, price) && (lim.Limited? ==> |b.index| < lim.capacity)
    ensures var o, o' := AddOp(b, lim, id, s, price, qty, mine), AddOp(b, Unlimited, id, s, price, qty, mine);
            && (o.error.Ok? <==> o'.error.Ok?) && o.book == o'.book
            && (!(id in b.index && Crossing(b, s, price)) ==> o == o')
            && (id in b.index && Crossing(b, s, price) && lim.Limited? && qty > 0 ==>
                  o.error == CrossedBook && o'.error == DuplicateOrder)
  {
    hide Crossing, Appended;
  }

  lemma RemovedIsOneFewer(b: Book, id: OrderId)
    requires WellFormed(b) && Holds(QueueOf(b, id), id)
    ensures |Removed(b, id).index| == |b.index| - 1
  {
    hide WellFormed;
    HeldIsIndexed(b, id);
    var b' := Removed(b, id);
    assert b'.index.Keys == b.index.Keys - {id};
    assert |b'.index| == |b'.index.Keys| && |b.index| == |b.index.Keys|;
  }

  ghost predicate AllFit(b: Book, lim: Limits, ops: seq<Op>)
    decreases |ops|
  {
    ops == [] || (OpFits(b, lim, ops[0]) && AllFit(Do(b, lim, ops[0]).book, lim, ops[1..]))
  }

  lemma {:induction false} RunsAgree(b: Book, lim: Limits, ops: seq<Op>)
    requires WellFormed(b) && AllFit(b, lim, ops)
    ensures DoAll(b, lim, ops) == DoAll(b, Unlimited, ops)
    decreases |ops|
  {
    if ops != [] {
      LimitsAreInvisible(b, lim, ops[0]);
      DoKeepsWellFormed(b, lim, ops[0]);
      RunsAgree(Do(b, lim, ops[0]).book, lim, ops[1..]);
    }
  }

  // ---- the pool is never overrun ----

  lemma AddKeepsCapacity(b: Book, lim: Limits, id: OrderId, s: Side, price: Ticks, qty: Qty, mine: bool)
    requires lim.Limited? && |b.index| <= lim.capacity
    ensures |AddOp(b, lim, id, s, price, qty, mine).book.index| <= lim.capacity
  {
    hide Crossing;
    var b' := AddOp(b, lim, id, s, price, qty, mine).book;
    assert b'.index == b.index || b'.index.Keys == b.index.Keys + {id};
    assert |b'.index| == |b'.index.Keys| && |b.index| == |b.index.Keys|;
  }

  lemma RemovedIsFewer(b: Book, id: OrderId)
    requires Holds(QueueOf(b, id), id)
    ensures |Removed(b, id).index| <= |b.index|
  {
    var b' := Removed(b, id);
    assert b'.index.Keys == b.index.Keys - {id};
    assert |b'.index| == |b'.index.Keys| && |b.index| == |b.index.Keys|;
  }

  lemma ApplyKeepsCapacity(b: Book, lim: Limits, e: BookEvent)
    requires lim.Limited? && |b.index| <= lim.capacity
    ensures |Apply(b, lim, e).book.index| <= lim.capacity
  {
    hide AddOp, Removed;
    var held := Holds(QueueOf(b, e.orderId), e.orderId);
    if held {
      RemovedIsFewer(b, e.orderId);
    }
    match e.kind
    case Add => AddKeepsCapacity(b, lim, e.orderId, e.side, e.price, e.qty, false);
    case Replace =>
      if held {
        var l := b.index[e.orderId];
        AddKeepsCapacity(Removed(b, e.orderId), lim, e.newId, l.side, e.price, e.qty, EntryOf(b, e.orderId).mine);
      }
    case _ =>
  }

  lemma {:induction false} RunKeepsCapacity(b: Book, lim: Limits, es: seq<BookEvent>)
    requires lim.Limited? && |b.index| <= lim.capacity
    ensures |Run(b, lim, es).index| <= lim.capacity
    decreases |es|
  {
    hide Apply;
    if es != [] {
      ApplyKeepsCapacity(b, lim, es[0]);
      RunKeepsCapacity(Apply(b, lim, es[0]).book, lim, es[1..]);
    }
  }

  // ---- queue position over a run ----

  // The operation neither clears the book nor sends this order to the back.
  predicate Keeps(op: Op, id: OrderId) {
    op.Feed? ==> !op.e.kind.Clear? && !(op.e.kind.Replace? && op.e.orderId == id)
  }

  lemma AppendAhead(b: Book, s: Side, price: Ticks, e: Entry, id: OrderId)
    requires WellFormed(b) && e.id !in b.index && id in b.index
    ensures QueueAhead(Appended(b, s, price, e), id) == QueueAhead(b, id)
  {
    var loc := b.index[id];
    QueueAfter(b.(index := b.index[e.id := Loc(s, price)]), s, price, QueueAt(b, s, price) + [e], loc.side, loc.price);
    HeldIsIndexed(b, id);
    IndexAppend(QueueOf(b, id), e, id);
    AheadAppend(QueueOf(b, id), e, id);
  }

  // An order that joins a queue has the whole of it in front.
  lemma JoinsAtTheBack(b: Book, s: Side, price: Ticks, e: Entry)
    requires WellFormed(b) && e.id !in b.index
    ensures QueueAhead(Appended(b, s, price, e), e.id) == Total(QueueAt(b, s, price))
  {
    QueueAfter(b.(index := b.index[e.id := Loc(s, price)]), s, price, QueueAt(b, s, price) + [e], s, price);
    HeldOnlyThere(b, s, price, e.id);
    IndexAppend(QueueAt(b, s, price), e, e.id);
    AheadAppend(QueueAt(b, s, price), e, e.id);
  }

  lemma RemoveAhead(b: Book, gone: OrderId, id: OrderId)
    requires WellFormed(b) && gone in b.index && id in b.index && id != gone
    requires Holds(QueueOf(b, gone), gone)
    ensures QueueAhead(Removed(b, gone), id) <= QueueAhead(b, id)
  {
    var loc, l, q := b.index[gone], b.index[id], QueueOf(b, gone);
    var k := IndexOf(q, gone);
    assert QueueOk(b, loc.side, loc.price);
    HeldIsIndexed(b, id);
    QueueAfter(b.(index := b.index - {gone}), loc.side, loc.price, Without(q, k), l.side, l.price);
    HoldsWithout(q, k, id);
    AheadWithout(q, k, id);
  }

  lemma ReduceAhead(b: Book, cutId: OrderId, cut: Qty, id: OrderId)
    requires WellFormed(b) && cutId in b.index && id in b.index && cut > 0
    requires Holds(QueueOf(b, cutId), cutId)
    ensures QueueAhead(Reduced(b, cutId, cut), id) <= QueueAhead(b, id)
  {
    var loc, l, q := b.index[cutId], b.index[id], QueueOf(b, cutId);
    var k := IndexOf(q, cutId);
    HeldIsIndexed(b, id);
    QueueAfter(b, loc.side, loc.price, Shrunk(q, k, cut), l.side, l.price);
    IndexShrunk(q, k, cut, id);
    AheadShrunk(q, k, cut, id);
  }

  lemma AddOpAhead(b: Book, lim: Limits, newId: OrderId, s: Side, price: Ticks, qty: Qty, mine: bool, id: OrderId)
    requires WellFormed(b) && id in b.index
    ensures QueueAhead(AddOp(b, lim, newId, s, price, qty, mine).book, id) == QueueAhead(b, id)
  {
    if AddError(b, lim, newId, s, price, qty).Ok? {
      AppendAhead(b, s, price, Entry(newId, qty, mine), id);
    }
  }

  lemma ReduceOpAhead(b: Book, cutId: OrderId, cut: Qty, id: OrderId)
    requires WellFormed(b) && id in b.index && id in ReduceOp(b, cutId, cut).book.index
    ensures QueueAhead(ReduceOp(b, cutId, cut).book, id) <= QueueAhead(b, id)
  {
    if Holds(QueueOf(b, cutId), cutId) && 0 < cut <= EntryOf(b, cutId).qty {
      if cut == EntryOf(b, cutId).qty {
        RemoveAhead(b, cutId, id);
      } else {
        ReduceAhead(b, cutId, cut, id);
      }
    }
  }

  // While an order rests, nothing anyone does puts more size in front of it.
  lemma AheadNeverGrows(b: Book, lim: Limits, op: Op, id: OrderId)
    requires WellFormed(b) && id in b.index && Keeps(op, id) && id in Do(b, lim, op).book.index
    ensures QueueAhead(Do(b, lim, op).book, id) <= QueueAhead(b, id)
  {
    hide Apply, AddOp, WellFormed, QueueAhead;
    match op
    case Feed(e) => EventAhead(b, lim, e, id);
    case Quote(newId, s, price, qty) => AddOpAhead(b, lim, newId, s, price, qty, true, id);
    case Pull(gone) =>
      if Holds(QueueOf(b, gone), gone) {
        RemoveAhead(b, gone, id);
      }
  }

  lemma EventAhead(b: Book, lim: Limits, e: BookEvent, id: OrderId)
    requires WellFormed(b) && id in b.index && Keeps(Feed(e), id) && id in Apply(b, lim, e).book.index
    ensures QueueAhead(Apply(b, lim, e).book, id) <= QueueAhead(b, id)
  {
    match e.kind
    case Add => AddOpAhead(b, lim, e.orderId, e.side, e.price, e.qty, false, id);
    case Reduce => ReduceOpAhead(b, e.orderId, e.qty, id);
    case Execute => ReduceOpAhead(b, e.orderId, e.qty, id);
    case Delete =>
      if Holds(QueueOf(b, e.orderId), e.orderId) {
        RemoveAhead(b, e.orderId, id);
      }
    case Replace =>
      if Holds(QueueOf(b, e.orderId), e.orderId) {
        RemoveAhead(b, e.orderId, id);
        RemovedWellFormed(b, e.orderId);
        var s, mine := b.index[e.orderId].side, EntryOf(b, e.orderId).mine;
        AddOpAhead(Removed(b, e.orderId), lim, e.newId, s, e.price, e.qty, mine, id);
      }
    case Aggress =>
  }

  // The order rests in every state of the run and is never re-queued.
  ghost predicate RestsThroughout(b: Book, lim: Limits, ops: seq<Op>, id: OrderId)
    decreases |ops|
  {
    id in b.index
    && (ops == [] || (Keeps(ops[0], id) && RestsThroughout(Do(b, lim, ops[0]).book, lim, ops[1..], id)))
  }

  // The rest of the level, observed at any moment since the order joined, bounds
  // what is ahead of it from then on: a running minimum of it is an upper bound.
  lemma {:induction false} OthersBoundAhead(b: Book, lim: Limits, ops: seq<Op>, id: OrderId)
    requires WellFormed(b) && RestsThroughout(b, lim, ops, id)
    ensures 0 <= QueueAhead(DoAll(b, lim, ops), id) <= QueueAhead(b, id) <= OthersAt(b, id)
    decreases |ops|
  {
    HeldIsIndexed(b, id);
    assert QueueOk(b, b.index[id].side, b.index[id].price);
    AheadAtMostOthers(QueueOf(b, id), id);
    if ops != [] {
      DoKeepsWellFormed(b, lim, ops[0]);
      AheadNeverGrows(b, lim, ops[0], id);
      OthersBoundAhead(Do(b, lim, ops[0]).book, lim, ops[1..], id);
    }
  }
}
