// What the count of gaps in the exchange's chain of ids tells of a capture: how many
// times lines are missing in it, and so whether it is whole.
module Chains {
  import opened Bitstamp

  // Order lines as the exchange sends them: each names the one before, and no id is
  // used twice.
  ghost predicate Chained(ls: seq<Line>) {
    && (forall k | 0 <= k < |ls| :: IsOrderLine(ls[k]) && 0 < |ls[k].eventId| <= ID_LENGTH)
    && (forall k | 0 < k < |ls| :: ls[k].preEventId == ls[k - 1].eventId)
    && (forall j, k | 0 <= j < k < |ls| :: ls[j].eventId != ls[k].eventId)
  }

  // The numbers of the lines captured.
  ghost predicate Picks(kept: seq<nat>, n: nat) {
    (forall k | 0 <= k < |kept| :: kept[k] < n) && (forall j, k | 0 <= j < k < |kept| :: kept[j] < kept[k])
  }

  function Picked(ls: seq<Line>, kept: seq<nat>): seq<Line>
    requires forall k | 0 <= k < |kept| :: kept[k] < |ls|
  {
    seq(|kept|, k requires 0 <= k < |kept| => ls[kept[k]])
  }

  // How often the next line captured is not the next line sent.
  function Skips(kept: seq<nat>): nat {
    if |kept| < 2 then 0
    else Skips(kept[..|kept| - 1]) + if kept[|kept| - 1] == kept[|kept| - 2] + 1 then 0 else 1
  }

  // A captured line, after the last one before it: no gap exactly if it was sent next.
  lemma GapIs(ls: seq<Line>, j: nat, k: nat)
    requires Chained(ls) && j < k < |ls|
    ensures GapAt(ls[j].eventId, ls[k]) == if k == j + 1 then 0 else 1
  {
    if k > j + 1 {
      assert ls[k].preEventId == ls[k - 1].eventId != ls[j].eventId;
    }
  }

  lemma RemembersAll(ls: seq<Line>, last: string, k: nat)
    requires Chained(ls) && k < |ls|
    ensures Remembered(last, ls[k]) == ls[k].eventId && GapAt("", ls[k]) == 0
  {
    var id := ls[k].eventId;
    assert id[..|id|] == id;
  }

  // The gaps counted are exactly the places where lines are missing in between.
  lemma {:induction false} GapsAreSkips(ls: seq<Line>, kept: seq<nat>)
    requires Chained(ls) && Picks(kept, |ls|)
    ensures GapsIn("", Picked(ls, kept)) == Skips(kept)
    ensures kept != [] ==> RememberedAfter("", Picked(ls, kept)) == ls[kept[|kept| - 1]].eventId
    decreases |kept|
  {
    hide Chained, GapAt, Remembered;
    if kept != [] {
      var n := |kept| - 1;
      GapsAreSkips(ls, kept[..n]);
      assert Picked(ls, kept)[..n] == Picked(ls, kept[..n]);
      RemembersAll(ls, RememberedAfter("", Picked(ls, kept[..n])), kept[n]);
      if n > 0 {
        GapIs(ls, kept[n - 1], kept[n]);
      }
    }
  }

  // Every line sent from the first captured to the last.
  ghost predicate Unbroken(kept: seq<nat>) {
    forall k | 0 <= k < |kept| :: kept[k] == kept[0] + k
  }

  lemma UnbrokenNext(kept: seq<nat>)
    requires |kept| >= 2
    ensures Unbroken(kept) <==> Unbroken(kept[..|kept| - 1]) && kept[|kept| - 1] == kept[|kept| - 2] + 1
  {
    var n := |kept| - 1;
    var init := kept[..n];
    if Unbroken(kept) {
      forall k | 0 <= k < n ensures init[k] == init[0] + k {
        assert init[k] == kept[k];
      }
    }
    if Unbroken(init) && kept[n] == kept[n - 1] + 1 {
      forall k | 0 <= k < |kept| ensures kept[k] == kept[0] + k {
        assert init[n - 1] == init[0] + (n - 1);
        assert k < n ==> init[k] == init[0] + k;
      }
    }
  }

  lemma {:induction false} SkipsNone(kept: seq<nat>)
    ensures Skips(kept) == 0 <==> Unbroken(kept)
    decreases |kept|
  {
    hide Unbroken;
    if |kept| >= 2 {
      SkipsNone(kept[..|kept| - 1]);
      UnbrokenNext(kept);
    } else {
      assert Unbroken(kept) by { UnbrokenShort(kept); }
    }
  }

  lemma UnbrokenShort(kept: seq<nat>)
    requires |kept| < 2
    ensures Unbroken(kept)
  {
  }

  // So a capture in which no gap is counted is whole, and only then.
  lemma NoGapsIsWhole(ls: seq<Line>, kept: seq<nat>)
    requires Chained(ls) && Picks(kept, |ls|)
    ensures GapsIn("", Picked(ls, kept)) == 0 <==> Unbroken(kept)
  {
    hide Unbroken, Chained, GapsIn;
    GapsAreSkips(ls, kept);
    SkipsNone(kept);
  }
}
