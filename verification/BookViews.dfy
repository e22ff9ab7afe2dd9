// What a reader of the book sees: sizes, fronts, queue positions and the depth
// ladder, as functions of the abstract book.
module BookViews {
  import opened Types
  import opened Queues
  import opened BookSpec

  // Size in front of an order, -1 when it is not resting.
  function QueueAhead(b: Book, id: OrderId): Qty {
    if Holds(QueueOf(b, id), id) then Ahead(QueueOf(b, id), id) else -1
  }

  // Everything else resting at the order's own price.
  function OthersAt(b: Book, id: OrderId): Qty {
    if Holds(QueueOf(b, id), id) then Total(QueueOf(b, id)) - EntryOf(b, id).qty else 0
  }

  function QtyOfSpec(b: Book, id: OrderId): Qty {
    if Holds(QueueOf(b, id), id) then EntryOf(b, id).qty else 0
  }

  predicate IsMineSpec(b: Book, id: OrderId) {
    Holds(QueueOf(b, id), id) && EntryOf(b, id).mine
  }

  // What a reader learns of an order is what its queue holds.
  lemma QueueEntryReads(b: Book, s: Side, p: Ticks, k: nat)
    requires WellFormed(b) && k < |QueueAt(b, s, p)|
    ensures var e := QueueAt(b, s, p)[k];
            && e.id in b.index && b.index[e.id] == Loc(s, p) && e.qty > 0
            && QtyOfSpec(b, e.id) == e.qty && IsMineSpec(b, e.id) == e.mine
  {
    assert QueueOk(b, s, p);
    IndexUnique(QueueAt(b, s, p), k);
  }

  // The order that fills next at a price, 0 when nothing rests there.
  function FrontSpec(b: Book, s: Side, p: Ticks): OrderId {
    if QueueAt(b, s, p) == [] then 0 else QueueAt(b, s, p)[0].id
  }

  // The best price of a side: the highest bid or the lowest ask.
  ghost predicate IsBest(l: Ladder, s: Side, p: Ticks) {
    p in l && forall p' | p' in l :: Through(s, p, p')
  }

  // An occupied side has a best price, at least as good as any one given.
  lemma {:induction false} BestExists(l: Ladder, s: Side, p: Ticks) returns (best: Ticks)
    requires p in l
    ensures IsBest(l, s, best) && Through(s, best, p)
  {
    if better :| better in l && !Through(s, p, better) {
      best := BestExists(l - {p}, s, better);
      assert forall p' | p' in l :: p' == p || p' in l - {p};
    } else {
      best := p;
    }
  }

  lemma BestUnique(l: Ladder, s: Side, p: Ticks, p': Ticks)
    requires IsBest(l, s, p) && IsBest(l, s, p')
    ensures p == p'
  {
  }

  // Strictly nearer the touch.
  predicate Better(s: Side, p: Ticks, p': Ticks) {
    if s.Bid? then p > p' else p < p'
  }

  // The first n occupied levels from the touch outwards: in order, with their
  // totals, and with no occupied price left out before the last one listed.
  ghost predicate IsDepth(b: Book, s: Side, n: nat, prices: seq<Ticks>, qtys: seq<Qty>) {
    && |prices| == |qtys| <= n
    && (forall j, k | 0 <= j < k < |prices| :: Better(s, prices[j], prices[k]))
    && (forall k | 0 <= k < |prices| :: prices[k] in LadderOf(b, s) && qtys[k] == Total(QueueAt(b, s, prices[k])))
    && (forall p | p in LadderOf(b, s) ::
          p in prices || (|prices| == n && forall k | 0 <= k < n :: Better(s, prices[k], p)))
  }

  // The description fixes the ladder, so two books with the same queues show the
  // same one.
  lemma {:induction false} DepthUnique(b: Book, s: Side, n: nat, ps: seq<Ticks>, qs: seq<Qty>, ps': seq<Ticks>,
                                       qs': seq<Qty>)
    requires IsDepth(b, s, n, ps, qs) && IsDepth(b, s, n, ps', qs')
    ensures ps == ps' && qs == qs'
  {
    DepthPrefix(b, s, n, ps, qs, ps', qs', |ps|);
    DepthPrefix(b, s, n, ps', qs', ps, qs, |ps'|);
    assert |ps| == |ps'|;
    assert ps[..|ps|] == ps && ps'[..|ps'|] == ps';
    forall k | 0 <= k < |qs| ensures qs[k] == qs'[k] {
      assert ps[k] == ps'[k];
    }
  }

  lemma {:induction false} DepthPrefix(b: Book, s: Side, n: nat, ps: seq<Ticks>, qs: seq<Qty>, ps': seq<Ticks>,
                                       qs': seq<Qty>, k: nat)
    requires IsDepth(b, s, n, ps, qs) && IsDepth(b, s, n, ps', qs') && k <= |ps|
    ensures k <= |ps'| && ps[..k] == ps'[..k]
  {
    if k > 0 {
      DepthPrefix(b, s, n, ps, qs, ps', qs', k - 1);
      DepthNext(b, s, n, ps, qs, ps', qs', k - 1);
      assert ps[..k] == ps[..k - 1] + [ps[k - 1]];
      assert ps'[..k] == ps'[..k - 1] + [ps'[k - 1]];
    }
  }

  // Ladders that agree on the first k levels agree on the next.
  lemma DepthNext(b: Book, s: Side, n: nat, ps: seq<Ticks>, qs: seq<Qty>, ps': seq<Ticks>, qs': seq<Qty>, k: nat)
    requires IsDepth(b, s, n, ps, qs) && IsDepth(b, s, n, ps', qs') && k < |ps| && k <= |ps'| && ps[..k] == ps'[..k]
    ensures k < |ps'| && ps'[k] == ps[k]
  {
    assert ps[k] !in ps'[..k];
    assert forall j | 0 <= j < k :: ps'[j] == ps[..k][j];
    assert ps[k] in LadderOf(b, s);
    assert k < |ps'|;
    assert ps'[k] in LadderOf(b, s);
    assert ps'[k] !in ps[..k];
  }

  // A ladder listed so far, and the nearest price not yet on it.
  ghost predicate DepthSoFar(b: Book, s: Side, prices: seq<Ticks>, qtys: seq<Qty>, more: bool, next: Ticks) {
    && |prices| == |qtys|
    && (forall j, k | 0 <= j < k < |prices| :: Better(s, prices[j], prices[k]))
    && (forall k | 0 <= k < |prices| :: prices[k] in LadderOf(b, s) && qtys[k] == Total(QueueAt(b, s, prices[k])))
    && (more ==> next in LadderOf(b, s) && forall k | 0 <= k < |prices| :: Better(s, prices[k], next))
    && (forall p | p in LadderOf(b, s) :: p in prices || (more && (p == next || Better(s, next, p))))
  }

  // Nothing occupied lies between `from` and `next`, or beyond `from` at all.
  ghost predicate NextPrice(b: Book, s: Side, from: Ticks, more: bool, next: Ticks) {
    && (more ==> next in LadderOf(b, s) && Better(s, from, next))
    && (forall p | p in LadderOf(b, s) && Better(s, from, p) :: more && (p == next || Better(s, next, p)))
  }

  lemma DepthStep(b: Book, s: Side, prices: seq<Ticks>, qtys: seq<Qty>, from: Ticks, more: bool, next: Ticks)
    requires DepthSoFar(b, s, prices, qtys, true, from) && NextPrice(b, s, from, more, next)
    ensures DepthSoFar(b, s, prices + [from], qtys + [Total(QueueAt(b, s, from))], more, next)
  {
    hide LadderOf, QueueAt, Total;
    var ps := prices + [from];
    forall p | p in LadderOf(b, s) ensures p in ps || (more && (p == next || Better(s, next, p))) {
      assert p in prices ==> p in ps;
      assert ps[|prices|] == from;
    }
  }

  lemma DepthDone(b: Book, s: Side, n: nat, prices: seq<Ticks>, qtys: seq<Qty>, more: bool, next: Ticks)
    requires DepthSoFar(b, s, prices, qtys, more, next) && |prices| <= n && (|prices| == n || !more)
    ensures IsDepth(b, s, n, prices, qtys)
  {
    hide LadderOf, QueueAt, Total;
  }
}
