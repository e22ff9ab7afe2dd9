// The book as a ledger: every order with its side, price, size, owner and the moment
// it last joined a queue, and nothing else. What each operation accepts and does is
// said of the ledger alone; the book, over every run of operations, keeps exactly
// that ledger, each price's queue in the order of joining.
module Ledgers {
  import opened Types
  import opened Queues
  import opened BookSpec
  import opened BookViews
  import opened BookRuns

  datatype Held = Held(side: Side, price: Ticks, qty: Qty, mine: bool, since: nat)

  type Ledger = map<OrderId, Held>

  // ---- what the ledger accepts ----

  // An order of the other side that a price would trade with.
  predicate Across(l: Ledger, s: Side, price: Ticks, id: OrderId) {
    && id in l && l[id].side != s
    && if s.Bid? then l[id].price <= price else l[id].price >= price
  }

  ghost predicate Welcome(l: Ledger, lim: Limits, id: OrderId, s: Side, price: Ticks, qty: Qty) {
    && qty > 0 && id !in l && (forall i :: !Across(l, s, price, i))
    && (lim.Limited? ==> lim.base <= price < lim.base + lim.window && |l| < lim.capacity)
  }

  ghost predicate Accepts(l: Ledger, lim: Limits, op: Op) {
    match op
    case Quote(id, s, price, qty) => Welcome(l, lim, id, s, price, qty)
    case Pull(id) => id in l
    case Feed(e) =>
      match e.kind
      case Add => Welcome(l, lim, e.orderId, e.side, e.price, e.qty)
      case Delete => e.orderId in l
      case Reduce => e.orderId in l && 0 < e.qty <= l[e.orderId].qty
      case Execute => e.orderId in l && 0 < e.qty <= l[e.orderId].qty
      case Replace =>
        e.orderId in l && Welcome(l - {e.orderId}, lim, e.newId, l[e.orderId].side, e.price, e.qty)
      case Clear => true
      case Aggress => true
  }

  // The answer to an add: of several faults, the first the book tests for. A book
  // without limits tests for a duplicate before it tests the price.
  ghost function AddAnswer(l: Ledger, lim: Limits, id: OrderId, s: Side, price: Ticks, qty: Qty): BookError {
    var crosses := exists i :: Across(l, s, price, i);
    if qty <= 0 then BadQuantity
    else if lim.Limited? && !(lim.base <= price < lim.base + lim.window) then PriceOutOfWindow
    else if lim.Limited? && |l| >= lim.capacity then PoolExhausted
    else if lim.Unlimited? && id in l then DuplicateOrder
    else if crosses then CrossedBook
    else if id in l then DuplicateOrder
    else Ok
  }

  function CutAnswer(l: Ledger, id: OrderId, qty: Qty): BookError {
    if id !in l then UnknownOrder else if 0 < qty <= l[id].qty then Ok else BadQuantity
  }

  ghost function Answer(l: Ledger, lim: Limits, op: Op): BookError {
    match op
    case Quote(id, s, price, qty) => AddAnswer(l, lim, id, s, price, qty)
    case Pull(id) => if id in l then Ok else UnknownOrder
    case Feed(e) =>
      match e.kind
      case Add => AddAnswer(l, lim, e.orderId, e.side, e.price, e.qty)
      case Delete => if e.orderId in l then Ok else UnknownOrder
      case Reduce => CutAnswer(l, e.orderId, e.qty)
      case Execute => CutAnswer(l, e.orderId, e.qty)
      case Replace =>
        if e.orderId !in l then UnknownOrder
        else AddAnswer(l - {e.orderId}, lim, e.newId, l[e.orderId].side, e.price, e.qty)
      case Clear => Ok
      case Aggress => Ok
  }

  function Cut(l: Ledger, id: OrderId, qty: Qty): Ledger
    requires id in l
  {
    if qty == l[id].qty then l - {id} else l[id := l[id].(qty := l[id].qty - qty)]
  }

  // What an operation at moment n leaves. A replaced order keeps its side and its
  // owner, and is gone even when the new one is not accepted.
  ghost function Next(l: Ledger, lim: Limits, op: Op, n: nat): Ledger {
    if op.Feed? && op.e.kind.Replace? && op.e.orderId in l then
      var was, rest := l[op.e.orderId], l - {op.e.orderId};
      if Accepts(l, lim, op) then rest[op.e.newId := Held(was.side, op.e.price, op.e.qty, was.mine, n)] else rest
    else if !Accepts(l, lim, op) then l
    else
      match op
      case Quote(id, s, price, qty) => l[id := Held(s, price, qty, true, n)]
      case Pull(id) => l - {id}
      case Feed(e) =>
        match e.kind
        case Add => l[e.orderId := Held(e.side, e.price, e.qty, false, n)]
        case Delete => l - {e.orderId}
        case Reduce => Cut(l, e.orderId, e.qty)
        case Execute => Cut(l, e.orderId, e.qty)
        case Replace => l
        case Clear => map[]
        case Aggress => l
  }

  ghost function LedgerAfter(lim: Limits, ops: seq<Op>): Ledger {
    if ops == [] then map[] else Next(LedgerAfter(lim, ops[..|ops| - 1]), lim, ops[|ops| - 1], |ops| - 1)
  }

  // ---- the book keeps the ledger ----

  predicate ToldAt(l: Ledger, q: Queue, s: Side, p: Ticks, k: nat) {
    k < |q| ==> q[k].id in l && l[q[k].id] == Held(s, p, q[k].qty, q[k].mine, l[q[k].id].since)
  }

  predicate Earlier(l: Ledger, q: Queue, j: nat, k: nat) {
    j < k < |q| ==> q[j].id in l && q[k].id in l && l[q[j].id].since < l[q[k].id].since
  }

  // The queue tells what the ledger says of its orders, the earliest first.
  ghost predicate Told(l: Ledger, q: Queue, s: Side, p: Ticks) {
    (forall k: nat :: ToldAt(l, q, s, p, k)) && (forall j: nat, k: nat :: Earlier(l, q, j, k))
  }

  ghost predicate QueueTold(l: Ledger, b: Book, s: Side, p: Ticks) {
    Told(l, QueueAt(b, s, p), s, p)
  }

  ghost predicate Kept(l: Ledger, b: Book, n: nat) {
    && WellFormed(b) && l.Keys == b.index.Keys
    && (forall s, p :: QueueTold(l, b, s, p))
    && forall id | id in l :: l[id].since < n
  }

  // What a reader of the book learns of an order is what the ledger says.
  lemma ReadsLedger(l: Ledger, b: Book, n: nat, id: OrderId)
    requires Kept(l, b, n)
    ensures id in b.index <==> id in l
    ensures id in l ==>
            && b.index[id] == Loc(l[id].side, l[id].price) && Holds(QueueOf(b, id), id)
            && EntryOf(b, id) == Entry(id, l[id].qty, l[id].mine) && l[id].qty > 0
    ensures QtyOfSpec(b, id) == if id in l then l[id].qty else 0
    ensures IsMineSpec(b, id) <==> id in l && l[id].mine
  {
    hide WellFormed;
    HeldIsIndexed(b, id);
    if id in l {
      var loc := b.index[id];
      assert QueueTold(l, b, loc.side, loc.price);
      assert ToldAt(l, QueueOf(b, id), loc.side, loc.price, IndexOf(QueueOf(b, id), id));
      EntryIsPositive(b, id);
    }
  }

  lemma EntryIsPositive(b: Book, id: OrderId)
    requires WellFormed(b) && id in b.index && Holds(QueueOf(b, id), id)
    ensures EntryOf(b, id).qty > 0
  {
    assert QueueOk(b, b.index[id].side, b.index[id].price);
  }

  lemma CrossingIsAcross(l: Ledger, b: Book, n: nat, s: Side, price: Ticks)
    requires Kept(l, b, n)
    ensures Crossing(b, s, price) <==> exists id :: Across(l, s, price, id)
  {
    hide WellFormed, LadderOf;
    if Crossing(b, s, price) {
      var p :| p in LadderOf(b, Opposite(s)) && Through(s, price, p);
      var id := SomeoneAt(b, Opposite(s), p);
      ReadsLedger(l, b, n, id);
      assert Across(l, s, price, id);
    }
    if id :| Across(l, s, price, id) {
      ReadsLedger(l, b, n, id);
      HeldInLadder(b, id);
      assert l[id].side == Opposite(s);
      assert l[id].price in LadderOf(b, Opposite(s)) && Through(s, price, l[id].price);
    }
  }

  lemma WelcomeIs(l: Ledger, b: Book, n: nat, lim: Limits, id: OrderId, s: Side, price: Ticks, qty: Qty)
    requires Kept(l, b, n)
    ensures AddError(b, lim, id, s, price, qty) == AddAnswer(l, lim, id, s, price, qty)
    ensures AddError(b, lim, id, s, price, qty).Ok? <==> Welcome(l, lim, id, s, price, qty)
  {
    hide WellFormed, Crossing;
    CrossingIsAcross(l, b, n, s, price);
    assert |l| == |l.Keys| && |b.index| == |b.index.Keys|;
  }

  // ---- what each change of a queue does to the telling ----

  lemma ToldElse(l: Ledger, l': Ledger, q: Queue, s: Side, p: Ticks, id: OrderId)
    requires Told(l, q, s, p) && forall k | 0 <= k < |q| :: q[k].id != id
    requires forall i | i != id && i in l :: i in l' && l'[i] == l[i]
    ensures Told(l', q, s, p)
  {
    forall k: nat ensures ToldAt(l', q, s, p, k) {
      assert ToldAt(l, q, s, p, k);
    }
    forall j: nat, k: nat ensures Earlier(l', q, j, k) {
      assert Earlier(l, q, j, k);
    }
  }

  lemma ToldAppend(l: Ledger, q: Queue, s: Side, p: Ticks, e: Entry, n: nat)
    requires Told(l, q, s, p) && e.id !in l && forall id | id in l :: l[id].since < n
    ensures Told(l[e.id := Held(s, p, e.qty, e.mine, n)], q + [e], s, p)
  {
    var l', q' := l[e.id := Held(s, p, e.qty, e.mine, n)], q + [e];
    forall k: nat ensures ToldAt(l', q', s, p, k) {
      assert ToldAt(l, q, s, p, k);
    }
    forall j: nat, k: nat ensures Earlier(l', q', j, k) {
      assert Earlier(l, q, j, k) && ToldAt(l, q, s, p, j) && ToldAt(l, q, s, p, k);
    }
  }

  lemma ToldWithout(l: Ledger, q: Queue, s: Side, p: Ticks, i: nat)
    requires Told(l, q, s, p) && i < |q| && DistinctIds(q)
    ensures Told(l - {q[i].id}, Without(q, i), s, p)
  {
    var l', q' := l - {q[i].id}, Without(q, i);
    forall k: nat ensures ToldAt(l', q', s, p, k) {
      assert ToldAt(l, q, s, p, if k < i then k else k + 1);
    }
    forall j: nat, k: nat ensures Earlier(l', q', j, k) {
      assert Earlier(l, q, if j < i then j else j + 1, if k < i then k else k + 1);
    }
  }

  lemma ToldShrunk(l: Ledger, q: Queue, s: Side, p: Ticks, i: nat, cut: Qty)
    requires Told(l, q, s, p) && i < |q| && DistinctIds(q) && q[i].id in l
    ensures Told(l[q[i].id := l[q[i].id].(qty := l[q[i].id].qty - cut)], Shrunk(q, i, cut), s, p)
  {
    var l', q' := l[q[i].id := l[q[i].id].(qty := l[q[i].id].qty - cut)], Shrunk(q, i, cut);
    forall k: nat ensures ToldAt(l', q', s, p, k) {
      assert ToldAt(l, q, s, p, k);
    }
    forall j: nat, k: nat ensures Earlier(l', q', j, k) {
      assert Earlier(l, q, j, k);
    }
  }

  // ---- each operation keeps the ledger ----

  lemma AddKept(l: Ledger, b: Book, lim: Limits, id: OrderId, s: Side, price: Ticks, qty: Qty, mine: bool, n: nat)
    requires Kept(l, b, n)
    ensures var o := AddOp(b, lim, id, s, price, qty, mine);
            && o.error == AddAnswer(l, lim, id, s, price, qty) && (o.error.Ok? <==> Welcome(l, lim, id, s, price, qty))
            && Kept(if o.error.Ok? then l[id := Held(s, price, qty, mine, n)] else l, o.book, n + 1)
  {
    hide WellFormed, Told, Crossing;
    WelcomeIs(l, b, n, lim, id, s, price, qty);
    var o := AddOp(b, lim, id, s, price, qty, mine);
    AddKeepsWellFormed(b, lim, id, s, price, qty, mine);
    if o.error.Ok? {
      var e := Entry(id, qty, mine);
      var bi, l' := b.(index := b.index[id := Loc(s, price)]), l[id := Held(s, price, qty, mine, n)];
      forall s', p' ensures QueueTold(l', o.book, s', p') {
        assert QueueTold(l, b, s', p');
        QueueAfter(bi, s, price, QueueAt(b, s, price) + [e], s', p');
        if s' == s && p' == price {
          ToldAppend(l, QueueAt(b, s, price), s, price, e, n);
        } else {
          NotThere(b, s', p', id);
          ToldElse(l, l', QueueAt(b, s', p'), s', p', id);
        }
      }
    }
  }

  lemma NotThere(b: Book, s: Side, p: Ticks, id: OrderId)
    requires WellFormed(b) && !(id in b.index && b.index[id] == Loc(s, p))
    ensures forall k | 0 <= k < |QueueAt(b, s, p)| :: QueueAt(b, s, p)[k].id != id
  {
    assert QueueOk(b, s, p);
  }

  lemma RemovedKept(l: Ledger, b: Book, id: OrderId, n: nat)
    requires Kept(l, b, n) && Holds(QueueOf(b, id), id)
    ensures Kept(l - {id}, Removed(b, id), n)
  {
    hide WellFormed, Told, Without;
    var loc, q := b.index[id], QueueOf(b, id);
    var i := IndexOf(q, id);
    RemovedWellFormed(b, id);
    DistinctAt(b, loc.side, loc.price);
    forall s', p' ensures QueueTold(l - {id}, Removed(b, id), s', p') {
      assert QueueTold(l, b, s', p');
      QueueAfter(b.(index := b.index - {id}), loc.side, loc.price, Without(q, i), s', p');
      if s' == loc.side && p' == loc.price {
        ToldWithout(l, q, s', p', i);
      } else {
        NotThere(b, s', p', id);
        ToldElse(l, l - {id}, QueueAt(b, s', p'), s', p', id);
      }
    }
  }

  lemma DistinctAt(b: Book, s: Side, p: Ticks)
    requires WellFormed(b)
    ensures DistinctIds(QueueAt(b, s, p))
  {
    assert QueueOk(b, s, p);
  }

  lemma ReducedKept(l: Ledger, b: Book, id: OrderId, cut: Qty, n: nat)
    requires Kept(l, b, n) && Holds(QueueOf(b, id), id) && 0 < cut < EntryOf(b, id).qty && id in l
    ensures Kept(l[id := l[id].(qty := l[id].qty - cut)], Reduced(b, id, cut), n)
  {
    hide WellFormed, Told, Shrunk;
    var loc, q := b.index[id], QueueOf(b, id);
    var i := IndexOf(q, id);
    var l' := l[id := l[id].(qty := l[id].qty - cut)];
    ReducedWellFormed(b, id, cut);
    DistinctAt(b, loc.side, loc.price);
    forall s', p' ensures QueueTold(l', Reduced(b, id, cut), s', p') {
      assert QueueTold(l, b, s', p');
      QueueAfter(b, loc.side, loc.price, Shrunk(q, i, cut), s', p');
      if s' == loc.side && p' == loc.price {
        ToldShrunk(l, q, s', p', i, cut);
      } else {
        NotThere(b, s', p', id);
        ToldElse(l, l', QueueAt(b, s', p'), s', p', id);
      }
    }
  }

  lemma KeptLater(l: Ledger, b: Book, n: nat)
    requires Kept(l, b, n)
    ensures Kept(l, b, n + 1)
  {
    hide WellFormed, Told;
  }

  lemma RemoveKept(l: Ledger, b: Book, id: OrderId, n: nat)
    requires Kept(l, b, n)
    ensures var o := RemoveOp(b, id);
            o.error == (if id in l then Ok else UnknownOrder) && Kept(if id in l then l - {id} else l, o.book, n + 1)
  {
    hide WellFormed, Told, Removed;
    ReadsLedger(l, b, n, id);
    HeldIsIndexed(b, id);
    KeptLater(l, b, n);
    if id in l {
      RemovedKept(l, b, id, n);
      KeptLater(l - {id}, Removed(b, id), n);
    }
  }

  lemma ReduceKept(l: Ledger, b: Book, id: OrderId, qty: Qty, n: nat)
    requires Kept(l, b, n)
    ensures var o := ReduceOp(b, id, qty);
            && o.error == CutAnswer(l, id, qty)
            && Kept(if id in l && 0 < qty <= l[id].qty then Cut(l, id, qty) else l, o.book, n + 1)
  {
    hide WellFormed, Told, Removed, Reduced, Kept;
    ReadsLedger(l, b, n, id);
    HeldThen(l, b, n, id);
    KeptLater(l, b, n);
    if id in l && 0 < qty <= l[id].qty {
      if qty == l[id].qty {
        RemovedKept(l, b, id, n);
        KeptLater(l - {id}, Removed(b, id), n);
      } else {
        ReducedKept(l, b, id, qty, n);
        KeptLater(Cut(l, id, qty), Reduced(b, id, qty), n);
      }
    }
  }

  lemma HeldThen(l: Ledger, b: Book, n: nat, id: OrderId)
    requires Kept(l, b, n)
    ensures Holds(QueueOf(b, id), id) <==> id in l
  {
    hide WellFormed, Told;
    HeldIsIndexed(b, id);
  }

  lemma ReplaceKept(l: Ledger, b: Book, lim: Limits, e: BookEvent, n: nat)
    requires Kept(l, b, n) && e.kind.Replace?
    ensures var o := Apply(b, lim, e);
            && o.error == Answer(l, lim, Feed(e)) && (o.error.Ok? <==> Accepts(l, lim, Feed(e)))
            && Kept(Next(l, lim, Feed(e), n), o.book, n + 1)
  {
    hide WellFormed, Told, Removed, AddOp, Kept, Welcome, AddAnswer;
    ReadsLedger(l, b, n, e.orderId);
    HeldThen(l, b, n, e.orderId);
    KeptLater(l, b, n);
    if e.orderId in l {
      RemovedKept(l, b, e.orderId, n);
      AddKept(l - {e.orderId}, Removed(b, e.orderId), lim, e.newId, l[e.orderId].side, e.price, e.qty,
        l[e.orderId].mine, n);
    }
  }

  // One operation: the book answers as the ledger does, accepts what it accepts, and
  // keeps the ledger it leaves.
  lemma DoKept(l: Ledger, b: Book, lim: Limits, op: Op, n: nat)
    requires Kept(l, b, n)
    ensures Do(b, lim, op).error == Answer(l, lim, op) && (Answer(l, lim, op).Ok? <==> Accepts(l, lim, op))
    ensures Kept(Next(l, lim, op, n), Do(b, lim, op).book, n + 1)
  {
    hide Told, AddOp, RemoveOp, ReduceOp, ReplaceOp, Kept, Welcome, AddAnswer;
    KeptLater(l, b, n);
    match op
    case Quote(id, s, price, qty) => AddKept(l, b, lim, id, s, price, qty, true, n);
    case Pull(id) => RemoveKept(l, b, id, n);
    case Feed(e) =>
      match e.kind
      case Add => AddKept(l, b, lim, e.orderId, e.side, e.price, e.qty, false, n);
      case Delete => RemoveKept(l, b, e.orderId, n);
      case Reduce => ReduceKept(l, b, e.orderId, e.qty, n);
      case Execute => ReduceKept(l, b, e.orderId, e.qty, n);
      case Replace => ReplaceKept(l, b, lim, e, n);
      case Clear => EmptyKept(n + 1);
      case Aggress =>
  }

  lemma EmptyKept(n: nat)
    ensures Kept(map[], EMPTY_BOOK, n)
  {
  }

  // Every run from the empty book, operation by operation.
  lemma {:induction false} RunKept(lim: Limits, ops: seq<Op>)
    ensures Kept(LedgerAfter(lim, ops), DoAll(EMPTY_BOOK, lim, ops), |ops|)
    decreases |ops|
  {
    hide Kept, Next, Do;
    if ops == [] {
      EmptyKept(0);
    } else {
      var k := |ops| - 1;
      RunKept(lim, ops[..k]);
      DoSnoc(EMPTY_BOOK, lim, ops, k);
      assert ops[..k + 1] == ops;
      DoKept(LedgerAfter(lim, ops[..k]), DoAll(EMPTY_BOOK, lim, ops[..k]), lim, ops[k], k);
    }
  }

  // So after any run an order rests exactly if the ledger says so, where, with the
  // size and for the owner the ledger says.
  lemma RunTells(lim: Limits, ops: seq<Op>, id: OrderId)
    ensures var b, l := DoAll(EMPTY_BOOK, lim, ops), LedgerAfter(lim, ops);
            && (id in b.index <==> id in l) && QtyOfSpec(b, id) == (if id in l then l[id].qty else 0)
            && (id in l ==> b.index[id] == Loc(l[id].side, l[id].price))
            && (IsMineSpec(b, id) <==> id in l && l[id].mine)
  {
    hide Kept, DoAll, LedgerAfter;
    RunKept(lim, ops);
    ReadsLedger(LedgerAfter(lim, ops), DoAll(EMPTY_BOOK, lim, ops), |ops|, id);
  }

  // And of two orders at one price the one that joined first is ahead.
  lemma FirstIsAhead(l: Ledger, b: Book, n: nat, id: OrderId, other: OrderId)
    requires Kept(l, b, n) && id in l && other in l && l[id].side == l[other].side && l[id].price == l[other].price
    ensures IndexOf(QueueOf(b, id), id) < IndexOf(QueueOf(b, id), other) <==> l[id].since < l[other].since
  {
    hide Kept, Told, IndexOf;
    ReadsLedger(l, b, n, id);
    ReadsLedger(l, b, n, other);
    QueueIsTold(l, b, n, l[id].side, l[id].price);
    var q := QueueOf(b, id);
    var i, j := IndexOf(q, id), IndexOf(q, other);
    InTurn(l, q, l[id].side, l[id].price, i, j);
    InTurn(l, q, l[id].side, l[id].price, j, i);
  }

  lemma QueueIsTold(l: Ledger, b: Book, n: nat, s: Side, p: Ticks)
    requires Kept(l, b, n)
    ensures Told(l, QueueAt(b, s, p), s, p)
  {
    assert QueueTold(l, b, s, p);
  }

  lemma InTurn(l: Ledger, q: Queue, s: Side, p: Ticks, j: nat, k: nat)
    requires Told(l, q, s, p)
    ensures j < k < |q| ==> q[j].id in l && q[k].id in l && l[q[j].id].since < l[q[k].id].since
  {
    assert Earlier(l, q, j, k);
  }

  // ---- one accepted add, without a ledger ----

  // The order rests at the back of its price, with the size and the owner asked for,
  // and no other order changes place, size or owner.
  lemma AddLeaves(b: Book, lim: Limits, id: OrderId, s: Side, price: Ticks, qty: Qty, mine: bool)
    requires WellFormed(b) && AddError(b, lim, id, s, price, qty).Ok?
    ensures var b' := AddOp(b, lim, id, s, price, qty, mine).book;
            && WellFormed(b') && b'.index == b.index[id := Loc(s, price)]
            && QtyOfSpec(b', id) == qty && (IsMineSpec(b', id) <==> mine)
            && QueueAhead(b', id) == Total(QueueAt(b, s, price))
    ensures var b' := AddOp(b, lim, id, s, price, qty, mine).book;
            forall i | i in b.index :: QtyOfSpec(b', i) == QtyOfSpec(b, i) && (IsMineSpec(b', i) <==> IsMineSpec(b, i))
  {
    hide WellFormed, IsMineSpec, QtyOfSpec, QueueAhead, Crossing;
    var e := Entry(id, qty, mine);
    var q, bi := QueueAt(b, s, price), b.(index := b.index[id := Loc(s, price)]);
    var b' := AddOp(b, lim, id, s, price, qty, mine).book;
    AddKeepsWellFormed(b, lim, id, s, price, qty, mine);
    QueueAfter(bi, s, price, q + [e], s, price);
    QueueEntryReads(b', s, price, |q|);
    JoinsAtTheBack(b, s, price, e);
    forall i | i in b.index ensures QtyOfSpec(b', i) == QtyOfSpec(b, i) && (IsMineSpec(b', i) <==> IsMineSpec(b, i)) {
      HeldIsIndexed(b, i);
      var loc, k := b.index[i], IndexOf(QueueOf(b, i), i);
      QueueEntryReads(b, loc.side, loc.price, k);
      QueueAfter(bi, s, price, q + [e], loc.side, loc.price);
      QueueEntryReads(b', loc.side, loc.price, k);
    }
  }
}
