// One side of the book as a single list in price-time order: best price first,
// and within a price the queue, front first.
module Flatten {
  import opened Types
  import opened Queues
  import opened BookSpec
  import opened BookViews

  datatype Resting = Resting(price: Ticks, e: Entry)

  type Flat = seq<Resting>

  // The entries of the list that rest at one price, in order.
  function Select(f: Flat, p: Ticks): Queue {
    if f == [] then []
    else (if f[0].price == p then [f[0].e] else []) + Select(f[1..], p)
  }

  // Later entries are never at a better price.
  ghost predicate BestFirst(f: Flat, s: Side) {
    forall j, k | 0 <= j < k < |f| :: !Better(s, f[k].price, f[j].price)
  }

  predicate SelectsQueue(b: Book, s: Side, f: Flat, p: Ticks) {
    Select(f, p) == QueueAt(b, s, p)
  }

  // f is the whole of side s of the book in price-time order.
  ghost predicate IsFlat(b: Book, s: Side, f: Flat) {
    BestFirst(f, s) && forall p :: SelectsQueue(b, s, f, p)
  }

  lemma {:induction false} SelectConcat(f: Flat, g: Flat, p: Ticks)
    ensures Select(f + g, p) == Select(f, p) + Select(g, p)
  {
    if f == [] {
      assert f + g == g;
    } else {
      SelectConcat(f[1..], g, p);
      assert (f + g)[1..] == f[1..] + g && (f + g)[0] == f[0];
      var h := if f[0].price == p then [f[0].e] else [];
      assert (h + Select(f[1..], p)) + Select(g, p) == h + (Select(f[1..], p) + Select(g, p));
    }
  }

  lemma {:induction false} SelectMember(f: Flat, k: nat)
    requires k < |f|
    ensures f[k].e in Select(f, f[k].price)
  {
    if k > 0 {
      SelectMember(f[1..], k - 1);
    }
  }

  lemma {:induction false} SelectOrigin(f: Flat, p: Ticks)
    requires Select(f, p) != []
    ensures exists k :: 0 <= k < |f| && f[k].price == p
  {
    if f[0].price != p {
      SelectOrigin(f[1..], p);
      var k :| 0 <= k < |f[1..]| && f[1..][k].price == p;
      assert f[k + 1].price == p;
    }
  }

  // A price is occupied exactly when the list mentions it.
  lemma FlatPrices(b: Book, s: Side, f: Flat, p: Ticks)
    requires WellFormed(b) && IsFlat(b, s, f)
    ensures p in LadderOf(b, s) <==> exists k :: 0 <= k < |f| && f[k].price == p
  {
    assert SelectsQueue(b, s, f, p);
    assert QueueOk(b, s, p);
    if k :| 0 <= k < |f| && f[k].price == p {
      SelectMember(f, k);
    }
    if p in LadderOf(b, s) {
      SelectOrigin(f, p);
    }
  }

  // The head of the list is the front of the best level, as every reader sees it.
  lemma FlatHead(b: Book, s: Side, f: Flat)
    requires WellFormed(b) && IsFlat(b, s, f) && f != []
    ensures IsBest(LadderOf(b, s), s, f[0].price)
    ensures QueueAt(b, s, f[0].price) == [f[0].e] + Select(f[1..], f[0].price)
    ensures FrontSpec(b, s, f[0].price) == f[0].e.id && f[0].e.qty > 0
    ensures f[0].e.id in b.index && b.index[f[0].e.id] == Loc(s, f[0].price)
    ensures Holds(QueueOf(b, f[0].e.id), f[0].e.id) && IndexOf(QueueOf(b, f[0].e.id), f[0].e.id) == 0
    ensures QtyOfSpec(b, f[0].e.id) == f[0].e.qty && IsMineSpec(b, f[0].e.id) == f[0].e.mine
  {
    hide WellFormed, IsFlat, LadderOf;
    HeadQueue(b, s, f);
    HeadIsBest(b, s, f);
  }

  lemma HeadQueue(b: Book, s: Side, f: Flat)
    requires WellFormed(b) && IsFlat(b, s, f) && f != []
    ensures QueueAt(b, s, f[0].price) == [f[0].e] + Select(f[1..], f[0].price)
    ensures f[0].e.qty > 0 && f[0].e.id in b.index && b.index[f[0].e.id] == Loc(s, f[0].price)
  {
    assert SelectsQueue(b, s, f, f[0].price);
    assert QueueOk(b, s, f[0].price);
    assert QueueAt(b, s, f[0].price)[0] == f[0].e;
  }

  lemma HeadIsBest(b: Book, s: Side, f: Flat)
    requires WellFormed(b) && IsFlat(b, s, f) && f != []
    ensures IsBest(LadderOf(b, s), s, f[0].price)
  {
    hide WellFormed, LadderOf;
    FlatPrices(b, s, f, f[0].price);
    forall p | p in LadderOf(b, s) ensures Through(s, f[0].price, p) {
      FlatPrices(b, s, f, p);
    }
  }

  lemma FlatEmpty(b: Book, s: Side, f: Flat)
    requires WellFormed(b) && IsFlat(b, s, f)
    ensures f == [] <==> forall p :: p !in LadderOf(b, s)
  {
    hide WellFormed, IsFlat, LadderOf;
    if f == [] {
      forall p ensures p !in LadderOf(b, s) {
        FlatPrices(b, s, f, p);
      }
    } else {
      FlatPrices(b, s, f, f[0].price);
    }
  }

  // ---- what taking from the head does ----

  lemma FlatAfterRemove(b: Book, s: Side, f: Flat)
    requires WellFormed(b) && IsFlat(b, s, f) && f != []
    requires Holds(QueueOf(b, f[0].e.id), f[0].e.id)
    ensures IsFlat(Removed(b, f[0].e.id), s, f[1..])
    ensures LadderOf(Removed(b, f[0].e.id), Opposite(s)) == LadderOf(b, Opposite(s))
  {
    hide WellFormed, Select, Holds, IndexOf;
    FlatHead(b, s, f);
    var id, p0 := f[0].e.id, f[0].price;
    var q, b' := QueueAt(b, s, p0), Removed(b, f[0].e.id);
    assert Without(q, 0) == Select(f[1..], p0);
    forall p ensures SelectsQueue(b', s, f[1..], p) {
      assert SelectsQueue(b, s, f, p);
      SelectHead(f, p);
      QueueAfter(b.(index := b.index - {id}), s, p0, Without(q, 0), s, p);
    }
    QueueAfterOpposite(b.(index := b.index - {id}), s, p0, Without(q, 0));
  }

  lemma SelectHead(f: Flat, p: Ticks)
    requires f != []
    ensures Select(f, p) == if f[0].price == p then [f[0].e] + Select(f[1..], p) else Select(f[1..], p)
  {
  }

  lemma QueueAfterOpposite(b: Book, s: Side, p: Ticks, q: Queue)
    ensures LadderOf(WithQueue(b, s, p, q), Opposite(s)) == LadderOf(b, Opposite(s))
  {
  }

  function Smaller(r: Resting, cut: Qty): Resting {
    r.(e := r.e.(qty := r.e.qty - cut))
  }

  lemma FlatAfterReduce(b: Book, s: Side, f: Flat, cut: Qty)
    requires WellFormed(b) && IsFlat(b, s, f) && f != []
    requires Holds(QueueOf(b, f[0].e.id), f[0].e.id)
    ensures IsFlat(Reduced(b, f[0].e.id, cut), s, [Smaller(f[0], cut)] + f[1..])
    ensures LadderOf(Reduced(b, f[0].e.id, cut), Opposite(s)) == LadderOf(b, Opposite(s))
  {
    hide WellFormed, Select, Holds, IndexOf;
    FlatHead(b, s, f);
    var id, p0, f' := f[0].e.id, f[0].price, [Smaller(f[0], cut)] + f[1..];
    var q, b' := QueueAt(b, s, p0), Reduced(b, f[0].e.id, cut);
    assert f'[1..] == f[1..];
    assert Shrunk(q, 0, cut) == [f'[0].e] + Select(f[1..], p0);
    forall p ensures SelectsQueue(b', s, f', p) {
      assert SelectsQueue(b, s, f, p);
      SelectHead(f, p);
      SelectHead(f', p);
      QueueAfter(b, s, p0, Shrunk(q, 0, cut), s, p);
    }
    QueueAfterOpposite(b, s, p0, Shrunk(q, 0, cut));
  }

  // ---- every side has such a list, and only one ----

  function Tagged(p: Ticks, q: Queue): (f: Flat)
    ensures |f| == |q| && forall k | 0 <= k < |q| :: f[k] == Resting(p, q[k])
  {
    seq(|q|, k requires 0 <= k < |q| => Resting(p, q[k]))
  }

  lemma {:induction false} SelectTagged(p: Ticks, q: Queue, p': Ticks)
    ensures Select(Tagged(p, q), p') == if p' == p then q else []
  {
    if q != [] {
      assert Tagged(p, q)[1..] == Tagged(p, q[1..]);
      SelectTagged(p, q[1..], p');
    }
  }

  lemma SelectPrepended(p: Ticks, q: Queue, g: Flat, p': Ticks)
    requires p' == p ==> Select(g, p) == []
    ensures Select(Tagged(p, q) + g, p') == if p' == p then q else Select(g, p')
  {
    SelectConcat(Tagged(p, q), g, p');
    SelectTagged(p, q, p');
  }

  function FromLadder(l: Ladder, p: Ticks): Queue {
    if p in l then l[p] else []
  }

  function LadderWithout(l: Ladder, p0: Ticks): Ladder {
    map p | p in l && p != p0 :: l[p]
  }

  lemma LadderShrinks(l: Ladder, p0: Ticks)
    requires p0 in l
    ensures |LadderWithout(l, p0)| < |l|
  {
    assert LadderWithout(l, p0).Keys == l.Keys - {p0};
  }

  ghost predicate IsLadderFlat(l: Ladder, s: Side, f: Flat) {
    && BestFirst(f, s)
    && (forall p :: SelectsFrom(l, f, p))
    && forall k | 0 <= k < |f| :: f[k].price in l
  }

  predicate SelectsFrom(l: Ladder, f: Flat, p: Ticks) {
    Select(f, p) == FromLadder(l, p)
  }

  lemma FlatPrepend(l: Ladder, s: Side, best: Ticks, g: Flat)
    requires IsBest(l, s, best) && IsLadderFlat(LadderWithout(l, best), s, g)
    ensures IsLadderFlat(l, s, Tagged(best, l[best]) + g)
  {
    hide BestFirst, Select, Tagged;
    var f := Tagged(best, l[best]) + g;
    PrependOrdered(l, s, best, g);
    forall p ensures SelectsFrom(l, f, p) {
      assert SelectsFrom(LadderWithout(l, best), g, p);
      SelectPrepended(best, l[best], g, p);
    }
  }

  lemma PrependOrdered(l: Ladder, s: Side, best: Ticks, g: Flat)
    requires IsBest(l, s, best) && BestFirst(g, s) && forall k | 0 <= k < |g| :: g[k].price in LadderWithout(l, best)
    ensures var f := Tagged(best, l[best]) + g; BestFirst(f, s) && forall k | 0 <= k < |f| :: f[k].price in l
  {
    var f, n := Tagged(best, l[best]) + g, |l[best]|;
    forall k: nat | k < |f| ensures f[k].price in l && (k < n ==> f[k].price == best) && (k >= n ==> f[k] == g[k - n]) {
    }
    forall j: nat, k: nat | j < k < |f| ensures !Better(s, f[k].price, f[j].price) {
      if j >= n {
        assert !Better(s, g[k - n].price, g[j - n].price);
      }
    }
  }

  lemma {:induction false} FlatExistsFor(l: Ladder, s: Side, n: nat) returns (f: Flat)
    requires |l| <= n
    ensures IsLadderFlat(l, s, f)
    decreases n
  {
    hide LadderWithout;
    if q :| q in l {
      var best := BestExists(l, s, q);
      LadderShrinks(l, best);
      var g := FlatExistsFor(LadderWithout(l, best), s, n - 1);
      FlatPrepend(l, s, best, g);
      f := Tagged(best, l[best]) + g;
    } else {
      f := [];
    }
  }

  lemma FlatExists(b: Book, s: Side) returns (f: Flat)
    ensures IsFlat(b, s, f)
  {
    f := FlatExistsFor(LadderOf(b, s), s, |LadderOf(b, s)|);
    forall p ensures SelectsQueue(b, s, f, p) {
      assert SelectsFrom(LadderOf(b, s), f, p);
    }
  }

  // ---- one side of a book has one price-time list ----

  lemma SameHead(f: Flat, g: Flat, s: Side)
    requires BestFirst(f, s) && BestFirst(g, s) && f != []
    requires forall p :: Select(f, p) == Select(g, p)
    ensures g != [] && g[0] == f[0]
  {
    assert Select(f, f[0].price) != [];
    SelectOrigin(g, f[0].price);
    assert Select(g, g[0].price) != [];
    SelectOrigin(f, g[0].price);
    var k :| 0 <= k < |g| && g[k].price == f[0].price;
    var j :| 0 <= j < |f| && f[j].price == g[0].price;
    assert !Better(s, g[k].price, g[0].price) || k == 0;
    assert !Better(s, f[j].price, f[0].price) || j == 0;
    assert Select(f, f[0].price)[0] == f[0].e && Select(g, f[0].price)[0] == g[0].e;
  }

  lemma {:induction false} FlatUnique(f: Flat, g: Flat, s: Side)
    requires BestFirst(f, s) && BestFirst(g, s)
    requires forall p :: Select(f, p) == Select(g, p)
    ensures f == g
    decreases |f|
  {
    if f != [] {
      SameHead(f, g, s);
      forall p ensures Select(f[1..], p) == Select(g[1..], p) {
        assert Select(f, p) == Select(g, p);
        SelectHead(f, p);
        SelectHead(g, p);
        if f[0].price == p {
          assert Select(f[1..], p) == Select(f, p)[1..] && Select(g[1..], p) == Select(g, p)[1..];
        }
      }
      assert forall k | 0 <= k < |f[1..]| :: f[1..][k] == f[k + 1];
      assert forall k | 0 <= k < |g[1..]| :: g[1..][k] == g[k + 1];
      FlatUnique(f[1..], g[1..], s);
    } else if g != [] {
      SameHead(g, f, s);
    }
  }

  lemma SomeFlat(b: Book, s: Side)
    ensures exists f :: IsFlat(b, s, f)
  {
    var f := FlatExists(b, s);
  }

  // The side in price-time order.
  ghost function PriceTime(b: Book, s: Side): (f: Flat)
    ensures IsFlat(b, s, f)
  {
    SomeFlat(b, s);
    var f :| IsFlat(b, s, f);
    f
  }

  // It is the only list that is.
  lemma PriceTimeIs(b: Book, s: Side, f: Flat)
    requires IsFlat(b, s, f)
    ensures f == PriceTime(b, s)
  {
    var g := PriceTime(b, s);
    forall p ensures Select(f, p) == Select(g, p) {
      assert SelectsQueue(b, s, f, p) && SelectsQueue(b, s, g, p);
    }
    FlatUnique(f, g, s);
  }
}
