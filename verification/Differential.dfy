// The differential harness: the fast book and the naive one, given the same feed
// events and the same orders of ours, answer alike and show the same thing to
// every reader.
module Differential {
  import opened Types
  import opened Queues
  import opened BookSpec
  import opened BookViews
  import opened BookRuns
  import opened OrderMaps
  import opened OrderBooks
  import opened ReferenceBooks

  method DoFast(fast: OrderBook, op: Op) returns (r: BookError)
    requires fast.Valid()
    modifies fast.Owned
    ensures fast.Valid() && Outcome(fast.Book(), r) == Do(old(fast.Book()), fast.Limits(), op)
  {
    hide OrderBook.Book, OrderBook.Limits, OrderBook.Valid, Apply, AddOp, RemoveOp;
    match op {
      case Feed(e) => r := fast.ApplyEvent(e);
      case Quote(id, s, price, qty) => r := fast.Add(id, s, price, qty, true);
      case Pull(id) => r := fast.Remove(id);
    }
  }

  method DoSlow(slow: ReferenceBook, op: Op) returns (r: BookError)
    requires slow.Valid()
    modifies slow
    ensures slow.Valid() && Outcome(slow.State(), r) == Do(old(slow.State()), Unlimited, op)
  {
    hide ReferenceBook.Valid, Apply, AddOp, RemoveOp;
    match op {
      case Feed(e) => r := slow.ApplyEvent(e);
      case Quote(id, s, price, qty) => r := slow.Add(id, s, price, qty, true);
      case Pull(id) => r := slow.Remove(id);
    }
  }

  // Both books do one thing that fits. They accept it together or refuse it
  // together, and hold the same queues afterwards.
  method Step(fast: OrderBook, slow: ReferenceBook, op: Op) returns (rf: BookError, rs: BookError)
    requires fast.Valid() && slow.Valid() && fast.Book() == slow.State() && slow !in fast.Owned
    requires OpFits(fast.Book(), fast.Limits(), op)
    modifies fast.Owned, slow
    ensures fast.Valid() && slow.Valid() && fast.Book() == slow.State()
    ensures Outcome(slow.State(), rs) == Do(old(fast.Book()), Unlimited, op)
    ensures rf.Ok? <==> rs.Ok?
    ensures !BothFaults(old(fast.Book()), op) ==> rf == rs
  {
    hide Do, OpFits, BothFaults, OrderBook.Book, OrderBook.Limits, WellFormed;
    fast.BookWellFormed();
    LimitsAreInvisible(fast.Book(), fast.Limits(), op);
    rf := DoFast(fast, op);
    rs := DoSlow(slow, op);
  }

  // The codes of a run: each is the specification's, on the book of that moment.
  ghost predicate Answers(b: Book, ops: seq<Op>, rs: seq<BookError>) {
    |rs| <= |ops| && forall k | 0 <= k < |rs| :: AnswersAt(b, ops, rs, k)
  }

  ghost predicate AnswersAt(b: Book, ops: seq<Op>, rs: seq<BookError>, k: nat)
    requires k < |rs| <= |ops|
  {
    rs[k] == Do(DoAll(b, Unlimited, ops[..k]), Unlimited, ops[k]).error
  }

  // Accepted by both or by neither; and unless there were two faults to choose
  // from, with the same code.
  ghost predicate AnswersAlike(b: Book, ops: seq<Op>, rf: seq<BookError>, rs: seq<BookError>) {
    |rf| == |rs| <= |ops| && forall k | 0 <= k < |rs| :: AlikeAt(b, ops, rf, rs, k)
  }

  ghost predicate AlikeAt(b: Book, ops: seq<Op>, rf: seq<BookError>, rs: seq<BookError>, k: nat)
    requires k < |rf| == |rs| <= |ops|
  {
    (rf[k].Ok? <==> rs[k].Ok?) && (!BothFaults(DoAll(b, Unlimited, ops[..k]), ops[k]) ==> rf[k] == rs[k])
  }

  // A whole stream: the two books answer every operation alike and end in the
  // state the specification reaches.
  method Drive(fast: OrderBook, slow: ReferenceBook, ops: seq<Op>) returns (rf: seq<BookError>, rs: seq<BookError>)
    requires fast.Valid() && slow.Valid() && fast.Book() == slow.State() && slow !in fast.Owned
    requires AllFit(fast.Book(), fast.Limits(), ops)
    modifies fast.Owned, slow
    ensures fast.Valid() && slow.Valid() && fast.Book() == slow.State()
    ensures fast.Book() == DoAll(old(fast.Book()), Unlimited, ops)
    ensures |rs| == |ops| && Answers(old(fast.Book()), ops, rs) && AnswersAlike(old(fast.Book()), ops, rf, rs)
  {
    hide Do, OpFits, OrderBook.Book, OrderBook.Valid, OrderBook.Limits, ReferenceBook.Valid, WellFormed, BothFaults,
         OrderMap.Valid, OrderMap.Contents, Answers, AnswersAlike, DoAll;
    ghost var b := fast.Book();
    rf, rs := [], [];
    NoAnswers(b, ops);
    DoSnoc(b, Unlimited, ops, 0);
    assert ops[0..] == ops;
    for k := 0 to |ops|
      invariant fast.Valid() && slow.Valid() && fast.Book() == slow.State() == DoAll(b, Unlimited, ops[..k])
      invariant AllFit(fast.Book(), fast.Limits(), ops[k..])
      invariant |rs| == k && Answers(b, ops, rs) && AnswersAlike(b, ops, rf, rs)
    {
      ghost var now := fast.Book();
      fast.BookWellFormed();
      assert ops[k..][0] == ops[k] && ops[k..][1..] == ops[k + 1..];
      LimitsAreInvisible(now, fast.Limits(), ops[k]);
      DoSnoc(b, Unlimited, ops, k);
      var r, r' := Step(fast, slow, ops[k]);
      AnswersSnoc(b, ops, rf, rs, r, r');
      rf, rs := rf + [r], rs + [r'];
    }
    assert ops[..|ops|] == ops;
  }

  lemma NoAnswers(b: Book, ops: seq<Op>)
    ensures Answers(b, ops, []) && AnswersAlike(b, ops, [], [])
  {
  }

  lemma AnswersSnoc(b: Book, ops: seq<Op>, rf: seq<BookError>, rs: seq<BookError>, r: BookError, r': BookError)
    requires Answers(b, ops, rs) && AnswersAlike(b, ops, rf, rs) && |rs| < |ops|
    requires var now, op := DoAll(b, Unlimited, ops[..|rs|]), ops[|rs|];
             r' == Do(now, Unlimited, op).error && (r.Ok? <==> r'.Ok?) && (!BothFaults(now, op) ==> r == r')
    ensures Answers(b, ops, rs + [r']) && AnswersAlike(b, ops, rf + [r], rs + [r'])
  {
    hide Do, DoAll, BothFaults;
    forall k | 0 <= k < |rs| + 1
      ensures AnswersAt(b, ops, rs + [r'], k) && AlikeAt(b, ops, rf + [r], rs + [r'], k)
    {
      if k < |rs| {
        assert AnswersAt(b, ops, rs, k) && AlikeAt(b, ops, rf, rs, k);
      }
    }
  }

  // ---- what a reader sees ----

  // The touch of one side, the number of live orders, one price, one order, and
  // the ladder of one side.
  datatype View = View(
    has: bool,
    best: Ticks,
    live: nat,
    ordersAt: nat,
    qtyAt: Qty,
    qtyOf: Qty,
    ahead: Qty,
    prices: seq<Ticks>,
    totals: seq<Qty>)

  // What a view of this book must be, but for the queue position.
  ghost predicate Shows(b: Book, s: Side, price: Ticks, id: OrderId, n: nat, v: View) {
    && (v.has <==> exists p :: p in LadderOf(b, s))
    && (if exists p :: p in LadderOf(b, s) then IsBest(LadderOf(b, s), s, v.best) else v.best == 0)
    && v.live == |b.index|
    && v.ordersAt == |QueueAt(b, s, price)| && v.qtyAt == Total(QueueAt(b, s, price))
    && v.qtyOf == QtyOfSpec(b, id)
    && IsDepth(b, s, n, v.prices, v.totals)
  }

  lemma ShowsOne(b: Book, s: Side, price: Ticks, id: OrderId, n: nat, v: View, v': View)
    requires Shows(b, s, price, id, n, v) && Shows(b, s, price, id, n, v')
    ensures v.(ahead := 0) == v'.(ahead := 0)
  {
    hide IsDepth, QtyOfSpec, LadderOf;
    DepthUnique(b, s, n, v.prices, v.totals, v'.prices, v'.totals);
    if exists p :: p in LadderOf(b, s) {
      BestUnique(LadderOf(b, s), s, v.best, v'.best);
    }
  }

  method ViewFast(fast: OrderBook, s: Side, price: Ticks, id: OrderId, n: nat) returns (v: View)
    requires fast.Valid()
    ensures Shows(fast.Book(), s, price, id, n, v)
    ensures v.ahead == if IsMineSpec(fast.Book(), id) then QueueAhead(fast.Book(), id) else -1
  {
    hide OrderBook.Book, OrderBook.Valid, QueueAhead, IsMineSpec, IsDepth, IsBest, LadderOf, QueueAt;
    var has := fast.HasBest(s);
    var best := fast.Best(s);
    var live := fast.LiveOrders();
    var ordersAt := fast.OrdersAt(s, price);
    var qtyAt := fast.QtyAt(s, price);
    var qtyOf := fast.QtyOf(id);
    var ahead := fast.QueueAheadOf(id);
    var prices, totals := fast.Depth(s, n);
    v := View(has, best, live, ordersAt, qtyAt, qtyOf, ahead, prices, totals);
  }

  method ViewSlow(slow: ReferenceBook, s: Side, price: Ticks, id: OrderId, n: nat) returns (v: View)
    requires slow.Valid()
    ensures Shows(slow.State(), s, price, id, n, v) && v.ahead == QueueAhead(slow.State(), id)
  {
    hide ReferenceBook.Valid, QueueAhead, IsDepth, IsBest, LadderOf, QueueAt;
    var has := slow.HasBest(s);
    var best := slow.Best(s);
    var live := slow.LiveOrders();
    var ordersAt := slow.OrdersAt(s, price);
    var qtyAt := slow.QtyAt(s, price);
    var qtyOf := slow.QtyOf(id);
    var ahead := slow.QueueAheadOf(id);
    var prices, totals := slow.LadderTop(s, n);
    v := View(has, best, live, ordersAt, qtyAt, qtyOf, ahead, prices, totals);
  }

  // Two books with the same queues show every reader the same. The fast book keeps
  // positions of our own orders only, and there its running count is the other's
  // walk.
  method SameView(fast: OrderBook, slow: ReferenceBook, s: Side, price: Ticks, id: OrderId, n: nat)
    returns (f: View, r: View)
    requires fast.Valid() && slow.Valid() && fast.Book() == slow.State()
    ensures Shows(fast.Book(), s, price, id, n, f) && f.(ahead := 0) == r.(ahead := 0)
    ensures r.ahead == QueueAhead(fast.Book(), id)
    ensures f.ahead == if IsMineSpec(fast.Book(), id) then r.ahead else -1
  {
    hide OrderBook.Book, OrderBook.Valid, ReferenceBook.Valid, QueueAhead, IsMineSpec, Shows;
    f := ViewFast(fast, s, price, id, n);
    r := ViewSlow(slow, s, price, id, n);
    ShowsOne(fast.Book(), s, price, id, n, f, r);
  }

  // After a clear the book answers any further stream as a fresh one does.
  method ClearIsFresh(used: OrderBook, clean: OrderBook, ops: seq<Op>)
    returns (errors: seq<BookError>, errors': seq<BookError>)
    requires used.Valid() && clean.Valid() && clean.Book() == EMPTY_BOOK && used.Limits() == clean.Limits()
    requires used.Owned !! clean.Owned
    modifies used.Owned, clean.Owned
    ensures used.Valid() && clean.Valid() && errors == errors' && |errors| == |ops| && used.Book() == clean.Book()
    ensures used.Book() == DoAll(EMPTY_BOOK, used.Limits(), ops)
  {
    hide Do, DoAll, OrderBook.Book, OrderBook.Valid, OrderBook.Limits, OrderMap.Valid, OrderMap.Contents;
    used.Clear();
    errors, errors' := [], [];
    DoSnoc(EMPTY_BOOK, used.Limits(), ops, 0);
    for k := 0 to |ops|
      invariant used.Valid() && clean.Valid() && errors == errors' && |errors| == k && used.Book() == clean.Book()
      invariant used.Book() == DoAll(EMPTY_BOOK, used.Limits(), ops[..k])
    {
      DoSnoc(EMPTY_BOOK, used.Limits(), ops, k);
      var r := DoFast(used, ops[k]);
      var r' := DoFast(clean, ops[k]);
      errors, errors' := errors + [r], errors' + [r'];
    }
    assert ops[..|ops|] == ops;
  }
}
