// The FIFO of resting orders at one price, front first, and what each operation
// does to its total size and to the size ahead of one order.
module Queues {
  import opened Types

  datatype Entry = Entry(id: OrderId, qty: Qty, mine: bool)

  type Queue = seq<Entry>

  // Position of the order, or the length of the queue when it is not there.
  function IndexOf(es: Queue, id: OrderId): (k: nat)
    ensures k <= |es|
    ensures k < |es| ==> es[k].id == id
    ensures forall j | 0 <= j < k :: es[j].id != id
  {
    if es == [] then 0 else if es[0].id == id then 0 else 1 + IndexOf(es[1..], id)
  }

  predicate Holds(es: Queue, id: OrderId) {
    IndexOf(es, id) < |es|
  }

  function Total(es: Queue): Qty {
    if es == [] then 0 else es[0].qty + Total(es[1..])
  }

  // Size resting in front of the order.
  function Ahead(es: Queue, id: OrderId): Qty {
    Total(es[..IndexOf(es, id)])
  }

  function Shrunk(es: Queue, k: nat, cut: Qty): Queue
    requires k < |es|
  {
    es[k := es[k].(qty := es[k].qty - cut)]
  }

  function Without<T>(s: seq<T>, k: nat): seq<T>
    requires k < |s|
  {
    s[..k] + s[k + 1..]
  }

  ghost predicate DistinctIds(es: Queue) {
    forall j, k | 0 <= j < k < |es| :: es[j].id != es[k].id
  }

  ghost predicate AllPositive(es: Queue) {
    forall k | 0 <= k < |es| :: es[k].qty > 0
  }

  lemma IndexUnique(es: Queue, k: nat)
    requires k < |es| && DistinctIds(es)
    ensures IndexOf(es, es[k].id) == k
  {
  }

  lemma IndexIs(es: Queue, id: OrderId, k: nat)
    requires k <= |es| && (k < |es| ==> es[k].id == id)
    requires forall j | 0 <= j < k :: es[j].id != id
    ensures IndexOf(es, id) == k
  {
  }

  lemma {:induction false} TotalConcat(a: Queue, b: Queue)
    ensures Total(a + b) == Total(a) + Total(b)
  {
    if a == [] {
      assert a + b == b;
    } else {
      assert (a + b)[1..] == a[1..] + b;
      TotalConcat(a[1..], b);
    }
  }

  lemma {:induction false} TotalNonNegative(es: Queue)
    requires AllPositive(es)
    ensures Total(es) >= |es|
  {
    if es != [] {
      TotalNonNegative(es[1..]);
    }
  }

  lemma {:induction false} TotalSplit(es: Queue, k: nat)
    requires k < |es|
    ensures Total(es) == Total(es[..k]) + es[k].qty + Total(es[k + 1..])
  {
    if k == 0 {
      assert es[..0] == [];
    } else {
      TotalSplit(es[1..], k - 1);
      assert es[..k][1..] == es[1..][..k - 1];
      assert es[k + 1..] == es[1..][k..];
    }
  }

  lemma TotalWithout(es: Queue, k: nat)
    requires k < |es|
    ensures Total(Without(es, k)) == Total(es) - es[k].qty
  {
    TotalSplit(es, k);
    TotalConcat(es[..k], es[k + 1..]);
  }

  lemma TotalShrunk(es: Queue, k: nat, cut: Qty)
    requires k < |es|
    ensures Total(Shrunk(es, k, cut)) == Total(es) - cut
  {
    TotalSplit(es, k);
    var t := Shrunk(es, k, cut);
    TotalSplit(t, k);
    assert t[..k] == es[..k] && t[k + 1..] == es[k + 1..];
  }

  // ---- the size ahead of an order, through each operation ----

  lemma IndexAppend(es: Queue, e: Entry, id: OrderId)
    ensures IndexOf(es + [e], id) == if Holds(es, id) then IndexOf(es, id) else if e.id == id then |es| else |es| + 1
  {
    var t := es + [e];
    var k := IndexOf(es, id);
    if k < |es| {
      assert t[k].id == id && forall j | 0 <= j < k :: t[j] == es[j];
    } else {
      assert t[|es|] == e && forall j | 0 <= j < |es| :: t[j] == es[j];
    }
  }

  lemma AheadAppend(es: Queue, e: Entry, id: OrderId)
    requires Holds(es, id) || e.id == id
    ensures Ahead(es + [e], id) == if Holds(es, id) then Ahead(es, id) else Total(es)
  {
    IndexAppend(es, e, id);
    var k := IndexOf(es, id);
    assert (es + [e])[..k] == es[..k];
    if k == |es| {
      assert es[..k] == es;
    }
  }

  lemma IndexShrunk(es: Queue, k: nat, cut: Qty, id: OrderId)
    requires k < |es|
    ensures IndexOf(Shrunk(es, k, cut), id) == IndexOf(es, id)
  {
    var t := Shrunk(es, k, cut);
    assert forall j | 0 <= j < |es| :: t[j].id == es[j].id;
  }

  lemma AheadShrunk(es: Queue, k: nat, cut: Qty, id: OrderId)
    requires k < |es|
    ensures Ahead(Shrunk(es, k, cut), id) == Ahead(es, id) - (if k < IndexOf(es, id) then cut else 0)
  {
    IndexShrunk(es, k, cut, id);
    var i := IndexOf(es, id);
    if k < i {
      assert Shrunk(es, k, cut)[..i] == Shrunk(es[..i], k, cut);
      TotalShrunk(es[..i], k, cut);
    } else {
      assert Shrunk(es, k, cut)[..i] == es[..i];
    }
  }

  lemma IndexWithout(es: Queue, k: nat, id: OrderId)
    requires k < |es| && es[k].id != id
    ensures IndexOf(Without(es, k), id) == if k < IndexOf(es, id) then IndexOf(es, id) - 1 else IndexOf(es, id)
  {
    var t, i := Without(es, k), IndexOf(es, id);
    assert forall j | 0 <= j < |t| :: t[j] == if j < k then es[j] else es[j + 1];
    if k < i {
      IndexIs(t, id, i - 1);
    } else {
      IndexIs(t, id, i);
    }
  }

  lemma AheadWithout(es: Queue, k: nat, id: OrderId)
    requires k < |es| && es[k].id != id
    ensures Ahead(Without(es, k), id) == Ahead(es, id) - (if k < IndexOf(es, id) then es[k].qty else 0)
  {
    hide IndexOf, Total, Without;
    IndexWithout(es, k, id);
    WithoutPrefix(es, k, IndexOf(es, id));
  }

  lemma WithoutPrefix(es: Queue, k: nat, i: nat)
    requires k < |es| && i <= |es|
    ensures k < i ==> Total(Without(es, k)[..i - 1]) == Total(es[..i]) - es[k].qty
    ensures i <= k ==> Without(es, k)[..i] == es[..i]
  {
    if k < i {
      assert Without(es, k)[..i - 1] == Without(es[..i], k);
      TotalWithout(es[..i], k);
    }
  }

  // Removing one order takes exactly its id out of the queue.
  lemma HoldsWithout(es: Queue, k: nat, id: OrderId)
    requires k < |es| && DistinctIds(es)
    ensures Holds(Without(es, k), id) <==> Holds(es, id) && id != es[k].id
  {
    var t := Without(es, k);
    assert forall j | 0 <= j < |t| :: t[j] == if j < k then es[j] else es[j + 1];
    if id != es[k].id {
      IndexWithout(es, k, id);
    }
  }

  lemma WithoutKeeps(es: Queue, k: nat)
    requires k < |es| && DistinctIds(es) && AllPositive(es)
    ensures var t := Without(es, k);
            DistinctIds(t) && AllPositive(t) && forall j | 0 <= j < |t| :: t[j] in es && t[j].id != es[k].id
  {
    var t := Without(es, k);
    assert forall j | 0 <= j < |t| :: t[j] == if j < k then es[j] else es[j + 1];
  }

  // What is ahead of an order is never more than everyone else's size.
  lemma AheadAtMostOthers(es: Queue, id: OrderId)
    requires Holds(es, id) && AllPositive(es)
    ensures 0 <= Ahead(es, id) <= Total(es) - es[IndexOf(es, id)].qty
  {
    var k := IndexOf(es, id);
    TotalSplit(es, k);
    TotalNonNegative(es[..k]);
    TotalNonNegative(es[k + 1..]);
  }
}
