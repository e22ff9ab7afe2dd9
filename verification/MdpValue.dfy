// Values of states and of actions, the Bellman operator, and how close a greedy
// step that hardly moves is to any of the operator's fixed points.
module MdpValue {
  import opened PolicyState
  import opened MdpSpec

  type Values = seq<real>

  function At(v: Values, i: nat): real {
    if i < |v| then v[i] else 0.0
  }

  function Gain(t: Transition, discount: real, v: Values): real {
    Times(t.prob, t.reward + Times(discount, At(v, t.next)))
  }

  // Expected reward plus discounted value over the listed transitions.
  function Expected(ts: seq<Transition>, discount: real, v: Values): real {
    if ts == [] then 0.0 else Expected(ts[..|ts| - 1], discount, v) + Gain(ts[|ts| - 1], discount, v)
  }

  function ActionValue(p: Params, v: Values, state: nat, action: nat): real
    requires Shaped(p) && state < NUM_STATES && action < NUM_ACTIONS
  {
    Expected(Successors(p, state, action), p.discount, v)
  }

  // The imbalance rows sum to exactly one.
  ghost predicate Exact(p: Params)
    requires Shaped(p)
  {
    forall i | 0 <= i < IMB_BUCKETS :: RowSum(p, i) == 1.0
  }

  // ---- distance ----

  ghost predicate Close(v: Values, w: Values, d: real) {
    forall i :: 0 <= i < NUM_STATES ==> Abs(At(v, i) - At(w, i)) <= d
  }

  ghost predicate Within(v: Values, bound: real) {
    forall i :: 0 <= i < NUM_STATES ==> Abs(At(v, i)) <= bound
  }

  lemma GainDiff(t: Transition, discount: real, v: Values, w: Values, d: real)
    requires t.prob >= 0.0 && discount >= 0.0 && Abs(At(v, t.next) - At(w, t.next)) <= d
    ensures Abs(Gain(t, discount, v) - Gain(t, discount, w)) <= Times(Times(discount, d), t.prob)
  {
    var x, y := At(v, t.next), At(w, t.next);
    TimesDiff(discount, x, y, d);
    TimesDiff(t.prob, t.reward + Times(discount, x), t.reward + Times(discount, y), Times(discount, d));
  }

  lemma TimesDiff(c: real, x: real, y: real, d: real)
    requires c >= 0.0 && Abs(x - y) <= d
    ensures Abs(Times(c, x) - Times(c, y)) <= Times(c, d) && Times(c, d) == Times(d, c)
  {
    assert Times(c, x) - Times(c, y) == c * (x - y);
    assert c * (x - y) <= c * d && -(c * d) <= c * (x - y) by {
      Monotone(c, x - y, d);
      Monotone(c, -d, x - y);
    }
  }

  lemma Monotone(c: real, x: real, y: real)
    requires c >= 0.0 && x <= y
    ensures c * x <= c * y
  {
    assert c * (y - x) >= 0.0;
  }

  // One backup shrinks distances by the discount.
  lemma {:induction false} ExpectedDiff(ts: seq<Transition>, discount: real, v: Values, w: Values, d: real)
    requires AllValid(ts) && discount >= 0.0 && Close(v, w, d)
    ensures Abs(Expected(ts, discount, v) - Expected(ts, discount, w)) <= Times(Times(discount, d), Mass(ts))
    decreases |ts|
  {
    hide Times, Gain, At;
    if ts == [] {
      TimesZero(Times(discount, d));
    } else {
      var n := |ts| - 1;
      ExpectedDiff(ts[..n], discount, v, w, d);
      CloseAt(v, w, d, ts[n].next);
      GainDiff(ts[n], discount, v, w, d);
      TimesSum(Times(discount, d), Mass(ts[..n]), ts[n].prob);
    }
  }

  lemma TimesOne(c: real)
    ensures Times(c, 1.0) == c
  {
  }

  lemma CloseAt(v: Values, w: Values, d: real, i: nat)
    requires Close(v, w, d) && i < NUM_STATES
    ensures Abs(At(v, i) - At(w, i)) <= d
  {
  }

  lemma Contraction(p: Params, v: Values, w: Values, d: real, state: nat, action: nat)
    requires Shaped(p) && ParamsOk(p) && Exact(p) && Close(v, w, d) && state < NUM_STATES && action < NUM_ACTIONS
    ensures Abs(ActionValue(p, v, state, action) - ActionValue(p, w, state, action)) <= Times(p.discount, d)
  {
    hide Expected, Times, Successors, Decode, Mass, RowSum, Close;
    var ts := Successors(p, state, action);
    SuccessorsValid(p, state, action);
    SuccessorMass(p, state, action);
    ExpectedDiff(ts, p.discount, v, w, d);
    TimesOne(Times(p.discount, d));
  }

  // ---- rewards, and values, are bounded ----

  function MaxEdge(p: Params): real
    requires Shaped(p)
  {
    MaxOf(Abs(p.edge[0]), MaxOf(Abs(p.edge[1]), Abs(p.edge[2])))
  }

  function MaxOf(x: real, y: real): real {
    if x < y then y else x
  }

  // Both edges, a full inventory moved against, and the penalty on it.
  function RewardCap(p: Params): real
    requires Shaped(p)
  {
    2.0 * MaxEdge(p) + 5.0 * p.moveTicks + 25.0 * p.inventoryPenalty
  }

  lemma EdgeWithin(p: Params, side: nat)
    requires Shaped(p) && side < SIDE_STATES
    ensures Abs(EdgeOf(p, side)) <= MaxEdge(p) && 0.0 <= MaxEdge(p)
  {
  }

  lemma RewardWithin(p: Params, q: int, b0: nat, a0: nat, br: Branch)
    requires Shaped(p) && ParamsOk(p) && b0 < SIDE_STATES && a0 < SIDE_STATES && Sensible(p, q, b0, a0, br)
    ensures Abs(Reward(p, ClampInv(br.inventory), br.edge, br.drift)) <= RewardCap(p)
  {
    hide EdgeOf, MaxEdge, Reward, RewardCap;
    EdgeWithin(p, b0);
    EdgeWithin(p, a0);
    assert Abs(br.edge) <= 2.0 * MaxEdge(p);
    RewardParts(p, ClampInv(br.inventory), br.edge, br.drift);
  }

  lemma RewardParts(p: Params, i: int, edge: real, drift: real)
    requires Shaped(p) && p.moveTicks > 0.0 && p.inventoryPenalty >= 0.0
    requires -MAX_INVENTORY <= i <= MAX_INVENTORY && Abs(edge) <= 2.0 * MaxEdge(p)
    requires drift == p.moveTicks || drift == -p.moveTicks || drift == 0.0
    ensures Abs(Reward(p, i, edge, drift)) <= RewardCap(p)
  {
    hide MaxEdge, Times;
    var x := i as real;
    assert -5.0 <= x <= 5.0;
    MarkWithin(x, drift, p.moveTicks);
    PenaltyWithin(x, p.inventoryPenalty);
    ThreeParts(edge, Times(x, drift), Times(Times(p.inventoryPenalty, x), x), 2.0 * MaxEdge(p), 5.0 * p.moveTicks,
      25.0 * p.inventoryPenalty);
  }

  lemma ThreeParts(e: real, m: real, n: real, e': real, m': real, n': real)
    requires Abs(e) <= e' && Abs(m) <= m' && 0.0 <= n <= n'
    ensures Abs(e + m - n) <= e' + m' + n'
  {
  }

  lemma MarkWithin(x: real, drift: real, move: real)
    requires -5.0 <= x <= 5.0 && move > 0.0 && (drift == move || drift == -move || drift == 0.0)
    ensures Abs(Times(x, drift)) <= 5.0 * move
  {
    hide Times;
    TimesWithin(move, x, 5.0);
    TimesRules(x, move, 5.0);
  }

  lemma TimesRules(x: real, y: real, z: real)
    ensures Times(x, y) == Times(y, x) && Times(x, -y) == -Times(y, x) && Times(x, 0.0) == 0.0
            && Times(y, 5.0) == 5.0 * y
  {
  }

  lemma PenaltyWithin(x: real, penalty: real)
    requires -5.0 <= x <= 5.0 && penalty >= 0.0
    ensures 0.0 <= Times(Times(penalty, x), x) <= 25.0 * penalty
  {
    hide Times;
    SquareWithin(x);
    TimesWithin(penalty, Times(x, x), 25.0);
    Positive(penalty, Times(x, x));
    Associates(penalty, x);
  }

  lemma Associates(c: real, x: real)
    ensures Times(Times(c, x), x) == Times(c, Times(x, x)) && Times(c, 25.0) == 25.0 * c
  {
  }

  lemma SquareWithin(x: real)
    requires -5.0 <= x <= 5.0
    ensures 0.0 <= Times(x, x) <= 25.0
  {
    Positive(5.0 - x, 5.0 + x);
    assert Times(5.0 - x, 5.0 + x) == 25.0 - Times(x, x);
    if x >= 0.0 {
      Positive(x, x);
    } else {
      Positive(-x, -x);
    }
  }

  ghost predicate RewardsWithin(ts: seq<Transition>, cap: real) {
    forall k | 0 <= k < |ts| :: Abs(ts[k].reward) <= cap
  }

  lemma {:induction false} SpreadRewards(p: Params, imb: nat, br: Branch, n: nat, cap: real)
    requires Shaped(p) && imb < IMB_BUCKETS && n <= IMB_BUCKETS && br.bid < SIDE_STATES && br.ask < SIDE_STATES
    requires Abs(Reward(p, ClampInv(br.inventory), br.edge, br.drift)) <= cap
    ensures RewardsWithin(Spread(p, imb, br, n), cap)
  {
    hide Reward, Encode, Times;
    if n > 0 && br.prob > 0.0 {
      SpreadRewards(p, imb, br, n - 1, cap);
    }
  }

  lemma {:induction false} SpreadAllRewards(p: Params, imb: nat, q: int, b0: nat, a0: nat, bs: seq<Branch>)
    requires Shaped(p) && ParamsOk(p) && imb < IMB_BUCKETS && OnGrid(bs) && b0 < SIDE_STATES && a0 < SIDE_STATES
    requires AllSensible(p, q, b0, a0, bs)
    ensures RewardsWithin(SpreadAll(p, imb, bs), RewardCap(p))
  {
    hide Spread, Reward, RewardCap, Sensible, ParamsOk;
    if bs != [] {
      var n := |bs| - 1;
      SpreadAllRewards(p, imb, q, b0, a0, bs[..n]);
      RewardWithin(p, q, b0, a0, bs[n]);
      SpreadRewards(p, imb, bs[n], IMB_BUCKETS, RewardCap(p));
    }
  }

  lemma SuccessorRewards(p: Params, state: nat, action: nat)
    requires Shaped(p) && ParamsOk(p) && state < NUM_STATES && action < NUM_ACTIONS
    ensures RewardsWithin(Successors(p, state, action), RewardCap(p))
  {
    hide ParamsOk, Branches, Decode, DecodeAction, ApplyAction, SpreadAll, Sensible, AllSensible, RewardCap;
    EncodeDecode(state);
    ActionRoundTrip(DecodeAction(action), action);
    var s, a := Decode(state), DecodeAction(action);
    BranchesSensible(p, s, a);
    SpreadAllRewards(p, s.imb, s.inventory, ApplyAction(s.bid, a.bid), ApplyAction(s.ask, a.ask), Branches(p, s, a));
  }

  lemma {:induction false} ExpectedWithin(ts: seq<Transition>, discount: real, v: Values, cap: real, bound: real)
    requires AllValid(ts) && discount >= 0.0 && RewardsWithin(ts, cap) && Within(v, bound)
    ensures Abs(Expected(ts, discount, v)) <= Times(cap + Times(discount, bound), Mass(ts))
    decreases |ts|
  {
    hide Times, At;
    if ts == [] {
      TimesZero(cap + Times(discount, bound));
    } else {
      var n := |ts| - 1;
      ExpectedWithin(ts[..n], discount, v, cap, bound);
      GainWithin(ts[n], discount, v, cap, bound);
      TimesSum(cap + Times(discount, bound), Mass(ts[..n]), ts[n].prob);
    }
  }

  lemma GainWithin(t: Transition, discount: real, v: Values, cap: real, bound: real)
    requires t.prob >= 0.0 && t.next < NUM_STATES && discount >= 0.0 && Abs(t.reward) <= cap && Within(v, bound)
    ensures Abs(Gain(t, discount, v)) <= Times(cap + Times(discount, bound), t.prob)
  {
    hide Times;
    var x := At(v, t.next);
    assert Abs(x) <= bound;
    TimesWithin(discount, x, bound);
    TimesWithin(t.prob, t.reward + Times(discount, x), cap + Times(discount, bound));
  }

  lemma TimesWithin(c: real, x: real, d: real)
    requires c >= 0.0 && Abs(x) <= d
    ensures Abs(Times(c, x)) <= Times(c, d) && Times(c, d) == Times(d, c)
  {
    Monotone(c, x, d);
    Monotone(c, -d, x);
  }

  // The bound every iterate keeps: the largest reward over one less the discount.
  function ValueCap(p: Params): real
    requires Shaped(p) && p.discount < 1.0
  {
    RewardCap(p) / (1.0 - p.discount)
  }

  lemma CapIsFixed(cap: real, discount: real)
    requires 0.0 < discount < 1.0
    ensures cap + Times(discount, cap / (1.0 - discount)) == cap / (1.0 - discount)
  {
    var b := cap / (1.0 - discount);
    assert b * (1.0 - discount) == cap;
  }

  lemma BackupWithin(p: Params, v: Values, state: nat, action: nat)
    requires Shaped(p) && ParamsOk(p) && Exact(p) && state < NUM_STATES && action < NUM_ACTIONS
    requires Within(v, ValueCap(p))
    ensures Abs(ActionValue(p, v, state, action)) <= ValueCap(p)
  {
    hide Expected, Times, Successors, Decode, Mass, RowSum, Within, RewardCap;
    var ts := Successors(p, state, action);
    SuccessorsValid(p, state, action);
    SuccessorMass(p, state, action);
    SuccessorRewards(p, state, action);
    CapIsFixed(RewardCap(p), p.discount);
    ExpectedWithin(ts, p.discount, v, RewardCap(p), ValueCap(p));
    TimesOne(RewardCap(p) + Times(p.discount, ValueCap(p)));
  }

  // ---- one greedy step ----

  const TIE := 0.000000000001

  function PowerOfTen(n: nat): real {
    if n == 0 then 1.0 else 10.0 * PowerOfTen(n - 1)
  }

  // What the search for a best action starts from.
  function Sentinel(): real {
    -PowerOfTen(300)
  }

  // The step's choice in one state: admissible, within the tie of every admissible
  // action, ahead of every lower-numbered one, and worth what it says, if any
  // action beat the sentinel.
  ghost predicate ImprovedAt(p: Params, v: Values, state: nat, best: real, action: nat)
    requires Shaped(p) && state < NUM_STATES
  {
    && action < NUM_ACTIONS && Admissible(state, action)
    && (forall a | 0 <= a < NUM_ACTIONS && Admissible(state, a) :: ActionValue(p, v, state, a) <= best + TIE)
    && (best == Sentinel()
        || (best == ActionValue(p, v, state, action)
            && forall a | 0 <= a < action && Admissible(state, a) :: ActionValue(p, v, state, a) < best))
  }

  ghost predicate Improved(p: Params, v: Values, next: Values, policy: seq<nat>)
    requires Shaped(p)
  {
    && |next| == |policy| == NUM_STATES
    && forall s | 0 <= s < NUM_STATES :: ImprovedAt(p, v, s, next[s], policy[s])
  }

  // w[s] is the best any admissible action can do, up to eta; exactly, when eta is zero.
  ghost predicate AlmostFixedAt(p: Params, w: Values, state: nat, eta: real)
    requires Shaped(p) && state < NUM_STATES
  {
    && (forall a | 0 <= a < NUM_ACTIONS && Admissible(state, a) :: ActionValue(p, w, state, a) <= At(w, state) + eta)
    && exists a :: 0 <= a < NUM_ACTIONS && Admissible(state, a) && At(w, state) <= ActionValue(p, w, state, a) + eta
  }

  // A fixed point of the Bellman operator, up to eta.
  ghost predicate AlmostFixed(p: Params, w: Values, eta: real)
    requires Shaped(p)
  {
    |w| == NUM_STATES && forall s | 0 <= s < NUM_STATES :: AlmostFixedAt(p, w, s, eta)
  }

  ghost predicate BeatSentinel(v: Values) {
    forall i | 0 <= i < |v| :: v[i] != Sentinel()
  }

  // The first n states' greatest distance, and where it is.
  lemma {:induction false} Farthest(v: Values, w: Values, n: nat) returns (d: real, at: nat)
    requires 0 < n <= NUM_STATES
    ensures at < n && d == Abs(At(v, at) - At(w, at)) && forall i | 0 <= i < n :: Abs(At(v, i) - At(w, i)) <= d
  {
    if n == 1 {
      d, at := Abs(At(v, 0) - At(w, 0)), 0;
    } else {
      d, at := Farthest(v, w, n - 1);
      if Abs(At(v, n - 1) - At(w, n - 1)) > d {
        d, at := Abs(At(v, n - 1) - At(w, n - 1)), n - 1;
      }
    }
  }

  lemma CloseChain(u: Values, v: Values, w: Values, d: real, e: real)
    requires Close(v, u, d) && Close(v, w, e)
    ensures Close(u, w, d + e)
  {
    forall i | 0 <= i < NUM_STATES ensures Abs(At(u, i) - At(w, i)) <= d + e {
      assert Abs(At(v, i) - At(u, i)) <= d && Abs(At(v, i) - At(w, i)) <= e;
    }
  }

  // A greedy step from a value near w lands within the ties of w, discounted.
  lemma StepNear(p: Params, v: Values, w: Values, state: nat, best: real, action: nat, d: real, eta: real)
    requires Shaped(p) && ParamsOk(p) && Exact(p) && state < NUM_STATES && AlmostFixedAt(p, w, state, eta)
    requires ImprovedAt(p, v, state, best, action) && best != Sentinel() && Close(v, w, d)
    ensures Abs(best - At(w, state)) <= TIE + eta + Times(p.discount, d)
  {
    hide ActionValue, Times, At, ParamsOk, Sentinel, Close, Exact, Admissible;
    var b :| 0 <= b < NUM_ACTIONS && Admissible(state, b) && At(w, state) <= ActionValue(p, w, state, b) + eta;
    Contraction(p, v, w, d, state, b);
    Contraction(p, v, w, d, state, action);
  }

  // An iterate that a greedy step moved by less than `tol` is this close to every
  // fixed point of the Bellman operator, and to every almost fixed one.
  lemma NearFixedPoint(p: Params, v: Values, next: Values, policy: seq<nat>, w: Values, tol: real, eta: real)
    requires Shaped(p) && ParamsOk(p) && Exact(p)
    requires Improved(p, v, next, policy) && BeatSentinel(next) && Close(next, v, tol) && AlmostFixed(p, w, eta)
    ensures Close(next, w, (TIE + eta + Times(p.discount, tol)) / (1.0 - p.discount))
  {
    hide ActionValue, Times, ParamsOk, ImprovedAt, AlmostFixedAt, Exact, Sentinel;
    DiscountOk(p);
    var d, at := Farthest(next, w, NUM_STATES);
    CloseChain(v, next, w, tol, d);
    StepNear(p, v, w, at, next[at], policy[at], tol + d, eta);
    TimesSum(p.discount, tol, d);
    DivideOut(d, TIE + eta + Times(p.discount, tol), p.discount);
  }

  lemma DiscountOk(p: Params)
    requires Shaped(p) && ParamsOk(p)
    ensures 0.0 < p.discount < 1.0
  {
  }

  lemma DivideOut(d: real, c: real, g: real)
    requires 0.0 < g < 1.0 && d <= c + Times(g, d)
    ensures d <= c / (1.0 - g)
  {
    var e := c / (1.0 - g);
    assert e * (1.0 - g) == c;
    assert (e - d) * (1.0 - g) >= 0.0;
    SignOf(e - d, 1.0 - g);
  }

  lemma SignOf(x: real, y: real)
    requires y > 0.0
    ensures x < 0.0 ==> x * y < 0.0
  {
    if x < 0.0 {
      assert (-x) * y > 0.0;
    }
  }

  lemma {:induction false} TenGrows(n: nat)
    requires n >= 13
    ensures PowerOfTen(n) >= 10000000000000.0
    decreases n
  {
    if n == 13 {
      assert PowerOfTen(13) == 10000000000000.0 by { Ten13(); }
    } else {
      TenGrows(n - 1);
    }
  }

  lemma Ten13()
    ensures PowerOfTen(13) == 10000000000000.0
  {
    assert PowerOfTen(4) == 10000.0;
    assert PowerOfTen(8) == 100000000.0;
    assert PowerOfTen(12) == 1000000000000.0;
  }

  lemma SentinelIsFar()
    ensures Sentinel() + TIE < -1000000000000.0
  {
    TenGrows(300);
  }

  lemma CapNotNegative(p: Params)
    requires Shaped(p) && ParamsOk(p)
    ensures p.discount < 1.0 && ValueCap(p) >= 0.0
  {
    EdgeWithin(p, 0);
    QuotientNotNegative(RewardCap(p), 1.0 - p.discount);
  }

  lemma QuotientNotNegative(x: real, y: real)
    requires x >= 0.0 && y > 0.0
    ensures x / y >= 0.0
  {
  }

  lemma WithinIntro(v: Values, bound: real)
    requires forall s | 0 <= s < NUM_STATES :: Abs(At(v, s)) <= bound
    ensures Within(v, bound)
  {
  }
}
