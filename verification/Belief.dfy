// The messages of a capture alone: what they leave believed of every order, which
// orders are open, and what was last said of each. Whether a price crosses is read
// off the belief itself, so nothing here mentions a book.
module Beliefs {
  import opened Types
  import opened BookSpec
  import opened FeedSpec
  import opened FeedStep
  import opened Bitstamp

  // ---- belief over a capture ----

  // This order is believed to rest where the price would trade with it.
  predicate RestsAcross(live: LiveMap, s: Side, p: Ticks, id: OrderId) {
    var st := BelievedIn(live, id);
    st.Rests? && st.loc.side == Opposite(s) && Through(s, p, st.loc.price)
  }

  ghost predicate WouldCross(live: LiveMap, s: Side, p: Ticks) {
    exists id :: RestsAcross(live, s, p, id)
  }

  ghost function NextBelief(cfg: Config, live: LiveMap, l: Line): LiveMap {
    match MsgOf(l)
    case None => live
    case Some(m) => Successor(cfg, live, m, WouldCross(live, m.side, m.price))
  }

  ghost function LineEvents(cfg: Config, live: LiveMap, l: Line, n: nat): seq<BookEvent> {
    match MsgOf(l)
    case None => []
    case Some(m) => MessageEvents(cfg, live, m, WouldCross(live, m.side, m.price), TimeOf(l), n)
  }

  ghost function BeliefAfter(cfg: Config, ls: seq<Line>): LiveMap {
    if ls == [] then map[] else NextBelief(cfg, BeliefAfter(cfg, ls[..|ls| - 1]), ls[|ls| - 1])
  }

  // The book events of a capture, numbered on from n.
  ghost function StreamOf(cfg: Config, ls: seq<Line>, n: nat): seq<BookEvent> {
    if ls == [] then []
    else
      var before := StreamOf(cfg, ls[..|ls| - 1], n);
      before + LineEvents(cfg, BeliefAfter(cfg, ls[..|ls| - 1]), ls[|ls| - 1], n + |before|)
  }

  // The orders believed to rest.
  function RestingIds(live: LiveMap): set<OrderId> {
    set id | id in live && Believed(live[id]).Rests?
  }

  lemma RestingIsIndex(live: LiveMap, b: Book)
    requires Lockstep(live, b)
    ensures RestingIds(live) == b.index.Keys && |RestingIds(live)| == |b.index|
  {
    hide Believed;
    forall id ensures id in RestingIds(live) <==> id in b.index.Keys {
      InStepStands(live, b, id);
    }
    assert |b.index| == |b.index.Keys|;
  }

  // In step, the book crosses where the belief says so.
  lemma CrossingIsBelieved(live: LiveMap, b: Book, s: Side, p: Ticks)
    requires WellFormed(b) && Lockstep(live, b)
    ensures Crossing(b, s, p) <==> WouldCross(live, s, p)
  {
    hide WellFormed, BelievedIn, QueueAt;
    if Crossing(b, s, p) {
      var q :| q in LadderOf(b, Opposite(s)) && Through(s, p, q);
      var id := SomeoneAt(b, Opposite(s), q);
      InStepStands(live, b, id);
      assert RestsAcross(live, s, p, id);
    }
    if WouldCross(live, s, p) {
      var id :| RestsAcross(live, s, p, id);
      InStepStands(live, b, id);
      HeldIsIndexed(b, id);
      HeldInLadder(b, id);
    }
  }

  // ---- open orders, and the last word on each ----

  // Created and not yet deleted.
  function OpenAfter(ls: seq<Line>): set<OrderId> {
    if ls == [] then {}
    else
      var open := OpenAfter(ls[..|ls| - 1]);
      match MsgOf(ls[|ls| - 1])
      case None => open
      case Some(m) => if m.kind.Created? then open + {m.id} else if m.kind.Deleted? then open - {m.id} else open
  }

  function LastWord(ls: seq<Line>, id: OrderId): Option<Msg> {
    if ls == [] then None
    else
      match MsgOf(ls[|ls| - 1])
      case None => LastWord(ls[..|ls| - 1], id)
      case Some(m) => if m.id == id then Some(m) else LastWord(ls[..|ls| - 1], id)
  }

  lemma {:induction false} BelievedAreOpen(cfg: Config, ls: seq<Line>)
    ensures BeliefAfter(cfg, ls).Keys == OpenAfter(ls)
  {
    hide AfterChange, Decided, WouldCross;
    if ls != [] {
      BelievedAreOpen(cfg, ls[..|ls| - 1]);
    }
  }

  // ---- a well-formed capture ----

  // Two messages of one order, the second later: it is not created twice and keeps
  // its side.
  predicate Consistent(m: Msg, m': Msg) {
    m.id == m'.id ==> !m'.kind.Created? && m'.side == m.side
  }

  predicate LinesConsistent(l: Line, l': Line) {
    MsgOf(l).Some? && MsgOf(l').Some? ==> Consistent(MsgOf(l).value, MsgOf(l').value)
  }

  // Nor does the second change the order back from nothing.
  predicate NotBack(l: Line, l': Line) {
    MsgOf(l).Some? && MsgOf(l').Some? ==>
      var m, m' := MsgOf(l).value, MsgOf(l').value;
      m.id == m'.id && m'.kind.Changed? && m.amount == 0 ==> m'.amount == 0
  }

  ghost predicate NeverBack(ls: seq<Line>) {
    forall j, k | 0 <= j < k < |ls| :: NotBack(ls[j], ls[k])
  }

  ghost predicate GoodFeed(ls: seq<Line>) {
    && (forall k | 0 <= k < |ls| && MsgOf(ls[k]).Some? :: MsgOf(ls[k]).value.amount >= 0)
    && (forall j, k | 0 <= j < k < |ls| :: LinesConsistent(ls[j], ls[k]))
  }

  lemma GoodPrefix(ls: seq<Line>, k: nat)
    requires GoodFeed(ls) && k <= |ls|
    ensures GoodFeed(ls[..k])
  {
    forall i, j | 0 <= i < j < k ensures LinesConsistent(ls[..k][i], ls[..k][j]) {
      assert LinesConsistent(ls[i], ls[j]);
    }
  }

  // One of an order's messages named this side and size.
  predicate Said(l: Line, id: OrderId, st: OrderState) {
    MsgOf(l).Some? && MsgOf(l).value.id == id && MsgOf(l).value.side == st.side && MsgOf(l).value.amount == st.remaining
  }

  ghost predicate AllSaid(live: LiveMap, ls: seq<Line>) {
    forall id | id in live :: exists j :: 0 <= j < |ls| && Said(ls[j], id, live[id])
  }

  // The next message of a good feed is one the decoder can follow.
  lemma NextIsWellFed(ls: seq<Line>, k: nat, live: LiveMap)
    requires GoodFeed(ls) && k < |ls| && AllSaid(live, ls[..k]) && MsgOf(ls[k]).Some?
    ensures WellFed(live, MsgOf(ls[k]).value)
  {
    var m := MsgOf(ls[k]).value;
    if m.id in live {
      var j :| 0 <= j < k && Said(ls[..k][j], m.id, live[m.id]);
      assert LinesConsistent(ls[j], ls[k]);
    }
  }

  lemma NextIsNotBack(ls: seq<Line>, k: nat, live: LiveMap)
    requires NeverBack(ls) && k < |ls| && AllSaid(live, ls[..k]) && MsgOf(ls[k]).Some?
    ensures var m := MsgOf(ls[k]).value; m.kind.Changed? && m.id in live && live[m.id].remaining == 0 ==> m.amount == 0
  {
    var m := MsgOf(ls[k]).value;
    if m.id in live {
      var j :| 0 <= j < k && Said(ls[..k][j], m.id, live[m.id]);
      assert NotBack(ls[j], ls[k]);
    }
  }

  // A message leaves its order with its own size and side, or as it was.
  lemma SuccessorSaid(cfg: Config, live: LiveMap, m: Msg, crosses: bool)
    requires WellFed(live, m)
    ensures var live' := Successor(cfg, live, m, crosses);
            m.id in live' ==>
              || (m.id in live && live'[m.id] == live[m.id])
              || (live'[m.id].remaining == m.amount && live'[m.id].side == m.side)
  {
  }

  lemma SaidNext(cfg: Config, live: LiveMap, ls: seq<Line>, l: Line, crosses: bool)
    requires AllSaid(live, ls)
    requires MsgOf(l).Some? ==> WellFed(live, MsgOf(l).value)
    ensures AllSaid(if MsgOf(l).Some? then Successor(cfg, live, MsgOf(l).value, crosses) else live, ls + [l])
  {
    hide Decided, AfterChange, Said, MsgOf;
    var live' := if MsgOf(l).Some? then Successor(cfg, live, MsgOf(l).value, crosses) else live;
    forall id | id in live' ensures exists j :: 0 <= j < |ls + [l]| && Said((ls + [l])[j], id, live'[id]) {
      if id in live && live'[id] == live[id] {
        var j :| 0 <= j < |ls| && Said(ls[j], id, live[id]);
        assert Said((ls + [l])[j], id, live'[id]);
      } else {
        NewlySaid(cfg, live, l, crosses, id);
        assert Said((ls + [l])[|ls|], id, live'[id]);
      }
    }
  }

  lemma NewlySaid(cfg: Config, live: LiveMap, l: Line, crosses: bool, id: OrderId)
    requires MsgOf(l).Some? && WellFed(live, MsgOf(l).value)
    requires var live' := Successor(cfg, live, MsgOf(l).value, crosses);
             id in live' && !(id in live && live'[id] == live[id])
    ensures Said(l, id, Successor(cfg, live, MsgOf(l).value, crosses)[id])
  {
    SuccessorSaid(cfg, live, MsgOf(l).value, crosses);
  }

  lemma {:induction false} BeliefIsSaid(cfg: Config, ls: seq<Line>)
    requires GoodFeed(ls)
    ensures AllSaid(BeliefAfter(cfg, ls), ls)
  {
    hide GoodFeed, Successor, WellFed, MsgOf, WouldCross;
    if ls != [] {
      var t, l := ls[..|ls| - 1], ls[|ls| - 1];
      GoodPrefix(ls, |t|);
      BeliefIsSaid(cfg, t);
      var live := BeliefAfter(cfg, t);
      assert ls == t + [l];
      if MsgOf(l).Some? {
        NextIsWellFed(ls, |t|, live);
        SaidNext(cfg, live, t, l, WouldCross(live, MsgOf(l).value.side, MsgOf(l).value.price));
      } else {
        SaidNext(cfg, live, t, l, false);
      }
    }
  }

  // ---- the last word holds ----

  // What is believed of an open order, given the last message about it: held
  // outside the band, or of that size, price and side.
  predicate AsSaid(cfg: Config, st: OrderState, m: Msg) {
    && !m.kind.Deleted?
    && if st.suppressed then !InBand(cfg, st.price)
       else st.remaining == m.amount && st.price == m.price && st.side == m.side
  }

  lemma ChangeAsSaid(cfg: Config, live: LiveMap, m: Msg, crosses: bool)
    requires WellFed(live, m) && (m.id in live && live[m.id].suppressed ==> !InBand(cfg, live[m.id].price))
    ensures var live' := Successor(cfg, live, m, crosses); m.id in live' ==> AsSaid(cfg, live'[m.id], m)
  {
  }

  // After a good feed, the orders believed in are exactly the open ones, each as
  // the last message about it said.
  lemma {:induction false} LastWordHolds(cfg: Config, ls: seq<Line>, id: OrderId)
    requires GoodFeed(ls)
    ensures id in BeliefAfter(cfg, ls) <==> id in OpenAfter(ls)
    ensures id in OpenAfter(ls) ==>
            LastWord(ls, id).Some? && AsSaid(cfg, BeliefAfter(cfg, ls)[id], LastWord(ls, id).value)
    decreases |ls|
  {
    hide GoodFeed, AfterChange, Decided, WellFed, WouldCross, MsgOf;
    BelievedAreOpen(cfg, ls);
    if ls != [] {
      var t, l := ls[..|ls| - 1], ls[|ls| - 1];
      GoodPrefix(ls, |t|);
      BeliefIsSaid(cfg, t);
      LastWordHolds(cfg, t, id);
      if MsgOf(l).Some? && MsgOf(l).value.id == id {
        var m, live := MsgOf(l).value, BeliefAfter(cfg, t);
        NextIsWellFed(ls, |t|, live);
        ChangeAsSaid(cfg, live, m, WouldCross(live, m.side, m.price));
      }
    }
  }
}
