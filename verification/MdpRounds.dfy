// Rounds of modified policy iteration, each a greedy step and the sweeps that follow
// its policy: every round brings the values nearer to being fixed, by the discount,
// down to a floor that the tie tolerance sets.
module MdpRounds {
  import opened PolicyState
  import opened MdpSpec
  import opened MdpValue
  import opened MdpFixed

  const EVALUATIONS := 32

  ghost predicate PolicyOk(policy: seq<nat>) {
    |policy| == NUM_STATES && forall s | 0 <= s < NUM_STATES :: policy[s] < NUM_ACTIONS && Admissible(s, policy[s])
  }

  // ---- one value above another, up to an amount ----

  ghost predicate Under(v: Values, w: Values, c: real) {
    forall i :: 0 <= i < NUM_STATES ==> At(v, i) <= At(w, i) + c
  }

  lemma UnderAt(v: Values, w: Values, c: real, i: nat)
    requires Under(v, w, c) && i < NUM_STATES
    ensures At(v, i) <= At(w, i) + c
  {
  }

  lemma UnderTrans(u: Values, v: Values, w: Values, c: real, d: real)
    requires Under(u, v, c) && Under(v, w, d)
    ensures Under(u, w, c + d)
  {
    forall i | 0 <= i < NUM_STATES ensures At(u, i) <= At(w, i) + (c + d) {
      UnderAt(u, v, c, i);
      UnderAt(v, w, d, i);
    }
  }

  lemma GainUnder(t: Transition, discount: real, v: Values, w: Values, c: real)
    requires t.prob >= 0.0 && discount >= 0.0 && At(v, t.next) <= At(w, t.next) + c
    ensures Gain(t, discount, v) <= Gain(t, discount, w) + Times(Times(discount, c), t.prob)
  {
    hide Times;
    var x, y := At(v, t.next), At(w, t.next);
    TimesUnder(discount, x, y, c);
    TimesUnder(t.prob, t.reward + Times(discount, x), t.reward + Times(discount, y), Times(discount, c));
    TimesBasics(t.prob, Times(discount, c));
  }

  lemma {:induction false} ExpectedUnder(ts: seq<Transition>, discount: real, v: Values, w: Values, c: real)
    requires AllValid(ts) && discount >= 0.0 && Under(v, w, c)
    ensures Expected(ts, discount, v) <= Expected(ts, discount, w) + Times(Times(discount, c), Mass(ts))
    decreases |ts|
  {
    hide Times, Gain, At;
    if ts == [] {
      TimesZero(Times(discount, c));
    } else {
      var n := |ts| - 1;
      ExpectedUnder(ts[..n], discount, v, w, c);
      UnderAt(v, w, c, ts[n].next);
      GainUnder(ts[n], discount, v, w, c);
      TimesSum(Times(discount, c), Mass(ts[..n]), ts[n].prob);
    }
  }

  // A backup keeps the order, and discounts the amount.
  lemma ActionUnder(p: Params, v: Values, w: Values, c: real, state: nat, action: nat)
    requires Shaped(p) && ParamsOk(p) && Exact(p) && Under(v, w, c) && state < NUM_STATES && action < NUM_ACTIONS
    ensures ActionValue(p, v, state, action) <= ActionValue(p, w, state, action) + Times(p.discount, c)
  {
    hide Expected, Times, Successors, Decode, Mass, RowSum, Under;
    var ts := Successors(p, state, action);
    SuccessorsValid(p, state, action);
    SuccessorMass(p, state, action);
    ExpectedUnder(ts, p.discount, v, w, c);
    TimesOne(Times(p.discount, c));
  }

  // ---- sweeps that hold one policy ----

  ghost function Sweep(p: Params, v: Values, policy: seq<nat>): (w: Values)
    requires Shaped(p) && PolicyOk(policy)
    ensures |w| == NUM_STATES
  {
    seq(NUM_STATES, s requires 0 <= s < NUM_STATES => ActionValue(p, v, s, policy[s]))
  }

  // The values after so many sweeps.
  ghost function Settled(p: Params, v: Values, policy: seq<nat>, n: nat): (w: Values)
    requires Shaped(p) && |v| == NUM_STATES && PolicyOk(policy)
    ensures |w| == NUM_STATES
  {
    if n == 0 then v else Sweep(p, Settled(p, v, policy, n - 1), policy)
  }

  lemma SweepUnder(p: Params, v: Values, w: Values, policy: seq<nat>, c: real)
    requires Shaped(p) && ParamsOk(p) && Exact(p) && PolicyOk(policy) && Under(v, w, c)
    ensures Under(Sweep(p, v, policy), Sweep(p, w, policy), Times(p.discount, c))
  {
    hide ActionValue, Times, ParamsOk, Exact, Under, Admissible;
    forall s: nat | s < NUM_STATES
      ensures At(Sweep(p, v, policy), s) <= At(Sweep(p, w, policy), s) + Times(p.discount, c)
    {
      ActionUnder(p, v, w, c, s, policy[s]);
    }
    UnderIntro(Sweep(p, v, policy), Sweep(p, w, policy), Times(p.discount, c));
  }

  lemma UnderIntro(v: Values, w: Values, c: real)
    requires forall s: nat | s < NUM_STATES :: At(v, s) <= At(w, s) + c
    ensures Under(v, w, c)
  {
  }

  lemma UnderMore(v: Values, w: Values, c: real, d: real)
    requires Under(v, w, c) && c <= d
    ensures Under(v, w, d)
  {
  }

  lemma Discounted(g: real, c: real)
    requires 0.0 < g < 1.0 && c >= 0.0
    ensures 0.0 <= Times(g, c) <= c
  {
    hide Times;
    TimesBasics(c, g);
    TimesUnder(c, g, 1.0, 0.0);
    Positive(g, c);
  }

  lemma {:induction false} SettledSplit(p: Params, v: Values, policy: seq<nat>, n: nat)
    requires Shaped(p) && |v| == NUM_STATES && PolicyOk(policy)
    ensures Settled(p, Sweep(p, v, policy), policy, n) == Settled(p, v, policy, n + 1)
  {
    hide Sweep, PolicyOk;
    if n > 0 {
      SettledSplit(p, v, policy, n - 1);
    } else {
      assert Settled(p, v, policy, 0) == v;
    }
  }

  // If the first sweep loses at most d, every later one loses at most the discount
  // of that.
  lemma {:induction false} StepsUnder(p: Params, v: Values, policy: seq<nat>, d: real, k: nat)
    requires Shaped(p) && ParamsOk(p) && Exact(p) && |v| == NUM_STATES && PolicyOk(policy) && k > 0
    requires d >= 0.0 && Under(v, Sweep(p, v, policy), d)
    ensures Under(Settled(p, v, policy, k), Settled(p, v, policy, k + 1), Times(p.discount, d))
  {
    hide Sweep, PolicyOk, ParamsOk, Exact, Under, Times;
    DiscountOk(p);
    Discounted(p.discount, d);
    var u, u' := Settled(p, v, policy, k - 1), Settled(p, v, policy, k);
    if k == 1 {
      assert u == v && u' == Sweep(p, v, policy);
      SweepUnder(p, u, u', policy, d);
    } else {
      StepsUnder(p, v, policy, d, k - 1);
      SweepUnder(p, u, u', policy, Times(p.discount, d));
      Discounted(p.discount, Times(p.discount, d));
      UnderMore(Sweep(p, u, policy), Sweep(p, u', policy), Times(p.discount, Times(p.discount, d)),
        Times(p.discount, d));
    }
  }

  lemma {:induction false} ClimbUnder(p: Params, v: Values, policy: seq<nat>, d: real, k: nat)
    requires Shaped(p) && ParamsOk(p) && Exact(p) && |v| == NUM_STATES && PolicyOk(policy)
    requires d >= 0.0 && Under(v, Sweep(p, v, policy), d)
    ensures Under(Sweep(p, v, policy), Settled(p, v, policy, k + 1), Times(k as real, Times(p.discount, d)))
  {
    hide Sweep, PolicyOk, ParamsOk, Exact, Under, Times;
    var step := Times(p.discount, d);
    if k == 0 {
      assert Settled(p, v, policy, 0) == v && Settled(p, v, policy, 1) == Sweep(p, v, policy);
      TimesBasics(step, 0.0);
      UnderSelf(Sweep(p, v, policy));
    } else {
      ClimbUnder(p, v, policy, d, k - 1);
      StepsUnder(p, v, policy, d, k);
      UnderTrans(Sweep(p, v, policy), Settled(p, v, policy, k), Settled(p, v, policy, k + 1),
        Times((k - 1) as real, step), step);
      TimesSum(step, (k - 1) as real, 1.0);
      TimesBasics(step, 1.0);
    }
  }

  lemma UnderSelf(v: Values)
    ensures Under(v, v, 0.0)
  {
  }

  // ---- one round ----

  ghost predicate GreedyAt(p: Params, v: Values, policy: seq<nat>, state: nat)
    requires Shaped(p) && PolicyOk(policy) && state < NUM_STATES
  {
    forall a | 0 <= a < NUM_ACTIONS && Admissible(state, a) ::
      ActionValue(p, v, state, a) <= ActionValue(p, v, state, policy[state]) + TIE
  }

  // In every state the policy's action is within the tie of the best.
  ghost predicate GreedyFor(p: Params, v: Values, policy: seq<nat>)
    requires Shaped(p) && PolicyOk(policy)
  {
    forall s | 0 <= s < NUM_STATES :: GreedyAt(p, v, policy, s)
  }

  ghost predicate RisesAt(p: Params, v: Values, state: nat, d: real)
    requires Shaped(p) && state < NUM_STATES
  {
    exists a :: 0 <= a < NUM_ACTIONS && Admissible(state, a) && At(v, state) <= ActionValue(p, v, state, a) + d
  }

  // In every state some action loses at most d.
  ghost predicate Rising(p: Params, v: Values, d: real)
    requires Shaped(p)
  {
    forall s | 0 <= s < NUM_STATES :: RisesAt(p, v, s, d)
  }

  lemma GreedyRises(p: Params, v: Values, policy: seq<nat>, d: real)
    requires Shaped(p) && PolicyOk(policy) && GreedyFor(p, v, policy) && Rising(p, v, d)
    ensures Under(v, Sweep(p, v, policy), d + TIE)
  {
    hide ActionValue, Admissible;
    forall s: nat | s < NUM_STATES ensures At(v, s) <= At(Sweep(p, v, policy), s) + (d + TIE) {
      assert RisesAt(p, v, s, d) && GreedyAt(p, v, policy, s);
    }
    UnderIntro(v, Sweep(p, v, policy), d + TIE);
  }

  // After a round the loss is discounted.
  lemma RoundRises(p: Params, v: Values, policy: seq<nat>, d: real)
    requires Shaped(p) && ParamsOk(p) && Exact(p) && |v| == NUM_STATES && PolicyOk(policy)
    requires GreedyFor(p, v, policy) && Rising(p, v, d) && d >= 0.0
    ensures Rising(p, Settled(p, v, policy, EVALUATIONS + 1), Times(p.discount, d + TIE))
  {
    hide ActionValue, Admissible, Times, ParamsOk, Exact, GreedyFor, Rising, Under;
    GreedyRises(p, v, policy, d);
    StepsUnder(p, v, policy, d + TIE, EVALUATIONS + 1);
    var u := Settled(p, v, policy, EVALUATIONS + 1);
    SweptRises(p, u, policy, Times(p.discount, d + TIE));
  }

  lemma SweptRises(p: Params, u: Values, policy: seq<nat>, d: real)
    requires Shaped(p) && PolicyOk(policy) && Under(u, Sweep(p, u, policy), d)
    ensures Rising(p, u, d)
  {
    hide ActionValue, Admissible;
    forall s: nat | s < NUM_STATES ensures RisesAt(p, u, s, d) {
      UnderAt(u, Sweep(p, u, policy), d, s);
      assert At(u, s) <= ActionValue(p, u, s, policy[s]) + d;
    }
  }

  // What was at most c above something almost fixed is less so after any sweep.
  lemma SweepBelow(p: Params, v: Values, policy: seq<nat>, w: Values, eta: real, c: real)
    requires Shaped(p) && ParamsOk(p) && Exact(p) && PolicyOk(policy) && AlmostFixed(p, w, eta) && Under(v, w, c)
    ensures Under(Sweep(p, v, policy), w, Times(p.discount, c) + eta)
  {
    hide ActionValue, Admissible, Times, ParamsOk, Exact, Under;
    forall s: nat | s < NUM_STATES ensures At(Sweep(p, v, policy), s) <= At(w, s) + (Times(p.discount, c) + eta) {
      ActionUnder(p, v, w, c, s, policy[s]);
      assert AlmostFixedAt(p, w, s, eta);
    }
    UnderIntro(Sweep(p, v, policy), w, Times(p.discount, c) + eta);
  }

  lemma {:induction false} RoundBelow(p: Params, v: Values, policy: seq<nat>, w: Values, eta: real, c: real, n: nat)
    requires Shaped(p) && ParamsOk(p) && Exact(p) && |v| == NUM_STATES && PolicyOk(policy) && AlmostFixed(p, w, eta)
    requires Under(v, w, c) && Times(p.discount, c) + eta <= c && n > 0
    ensures Under(Settled(p, v, policy, n), w, Times(p.discount, c) + eta)
  {
    hide Sweep, PolicyOk, Times, ParamsOk, Exact, Under, AlmostFixed;
    var u := Settled(p, v, policy, n - 1);
    if n == 1 {
      assert u == v;
    } else {
      RoundBelow(p, v, policy, w, eta, c, n - 1);
      UnderMore(u, w, Times(p.discount, c) + eta, c);
    }
    SweepBelow(p, u, policy, w, eta, c);
  }

  // And what it was at most c below, up to the tie and to what the sweeps lose.
  lemma GreedyAbove(p: Params, v: Values, policy: seq<nat>, w: Values, eta: real, c: real)
    requires Shaped(p) && ParamsOk(p) && Exact(p) && PolicyOk(policy) && AlmostFixed(p, w, eta)
    requires GreedyFor(p, v, policy) && Under(w, v, c)
    ensures Under(w, Sweep(p, v, policy), Times(p.discount, c) + eta + TIE)
  {
    hide ActionValue, Admissible, Times, ParamsOk, Exact, Under;
    forall s: nat | s < NUM_STATES ensures At(w, s) <= At(Sweep(p, v, policy), s) + (Times(p.discount, c) + eta + TIE) {
      assert AlmostFixedAt(p, w, s, eta) && GreedyAt(p, v, policy, s);
      var b :| 0 <= b < NUM_ACTIONS && Admissible(s, b) && At(w, s) <= ActionValue(p, w, s, b) + eta;
      ActionUnder(p, w, v, c, s, b);
    }
    UnderIntro(w, Sweep(p, v, policy), Times(p.discount, c) + eta + TIE);
  }

  lemma RoundAbove(p: Params, v: Values, policy: seq<nat>, w: Values, eta: real, c: real, d: real)
    requires Shaped(p) && ParamsOk(p) && Exact(p) && |v| == NUM_STATES && PolicyOk(policy) && AlmostFixed(p, w, eta)
    requires GreedyFor(p, v, policy) && Under(w, v, c) && Rising(p, v, d) && d >= 0.0
    ensures Under(w, Settled(p, v, policy, EVALUATIONS + 1),
                  Times(p.discount, c) + eta + TIE + Times(EVALUATIONS as real, Times(p.discount, d + TIE)))
  {
    hide Sweep, PolicyOk, Times, ParamsOk, Exact, Under, AlmostFixed, Rising, GreedyFor, Settled;
    GreedyRises(p, v, policy, d);
    GreedyAbove(p, v, policy, w, eta, c);
    ClimbUnder(p, v, policy, d + TIE, EVALUATIONS);
    UnderTrans(w, Sweep(p, v, policy), Settled(p, v, policy, EVALUATIONS + 1), Times(p.discount, c) + eta + TIE,
               Times(EVALUATIONS as real, Times(p.discount, d + TIE)));
  }

  // ---- where the rounds lead ----

  // The sum of all the powers of the discount.
  function Horizon(p: Params): real
    requires p.discount < 1.0
  {
    1.0 / (1.0 - p.discount)
  }

  lemma HorizonIs(p: Params)
    requires 0.0 < p.discount < 1.0
    ensures Horizon(p) >= 1.0 && Times(p.discount, Horizon(p)) + 1.0 == Horizon(p)
  {
    var u := Horizon(p);
    assert u * (1.0 - p.discount) == 1.0;
    assert u * (1.0 - p.discount) == u - p.discount * u;
    HorizonAtLeast(u, p.discount);
  }

  lemma HorizonAtLeast(u: real, g: real)
    requires 0.0 < g < 1.0 && u * (1.0 - g) == 1.0
    ensures u >= 1.0
  {
    if u < 0.0 {
      SignOf(u, 1.0 - g);
    } else {
      Monotone(u, 1.0 - g, 1.0);
    }
  }

  // What is left of the starting error after n rounds.
  function Fading(p: Params, n: nat): real
    requires Shaped(p) && p.discount < 1.0
  {
    Times(Pow(p.discount, n), ValueCap(p))
  }

  // After n rounds: what the greedy step may lose, and how far the values may be
  // above and below something fixed up to the tie.
  function LossAt(p: Params, n: nat): real
    requires Shaped(p) && p.discount < 1.0
  {
    Times(p.discount, Times(TIE, Horizon(p))) + Fading(p, n)
  }

  function AboveAt(p: Params, n: nat): real
    requires Shaped(p) && p.discount < 1.0
  {
    Times(TIE, Horizon(p)) + Fading(p, n)
  }

  // What a round adds below: two ties, and what the sweeps lose of them.
  function LostPerRound(p: Params): real
    requires p.discount < 1.0
  {
    2.0 * TIE + Times(EVALUATIONS as real, Times(p.discount, Times(TIE, Horizon(p))))
  }

  function BelowAt(p: Params, n: nat): real
    requires Shaped(p) && p.discount < 1.0
  {
    Times(LostPerRound(p), Horizon(p)) + Fading(p, n) + Times(EVALUATIONS as real, Times(n as real, Fading(p, n)))
  }

  lemma FadingNext(p: Params, n: nat)
    requires Shaped(p) && p.discount < 1.0
    ensures Fading(p, n + 1) == Times(p.discount, Fading(p, n))
  {
    Regroup(p.discount, Pow(p.discount, n), ValueCap(p));
  }

  lemma LossNext(p: Params, n: nat)
    requires Shaped(p) && 0.0 < p.discount < 1.0
    ensures LossAt(p, n) + TIE == AboveAt(p, n)
    ensures Times(p.discount, LossAt(p, n) + TIE) == LossAt(p, n + 1)
    ensures Times(p.discount, AboveAt(p, n)) + TIE == AboveAt(p, n + 1)
  {
    hide Times, Fading, Horizon;
    var g, u, x := p.discount, Horizon(p), Fading(p, n);
    HorizonIs(p);
    FadingNext(p, n);
    Swap(g, TIE, u);
    TimesSum(TIE, Times(g, u), 1.0);
    TimesBasics(TIE, 1.0);
    TimesSum(g, Times(TIE, u), x);
  }

  lemma Swap(x: real, y: real, z: real)
    ensures Times(x, Times(y, z)) == Times(y, Times(x, z))
  {
  }

  lemma BelowNext(p: Params, n: nat)
    requires Shaped(p) && 0.0 < p.discount < 1.0
    ensures Times(p.discount, BelowAt(p, n)) + TIE + TIE + Times(EVALUATIONS as real,
            Times(p.discount, LossAt(p, n) + TIE))
         == BelowAt(p, n + 1)
  {
    hide Times, Fading, Horizon, LossAt, LostPerRound;
    var g, u, x, k, e := p.discount, Horizon(p), Fading(p, n), n as real, EVALUATIONS as real;
    var lost := LostPerRound(p);
    HorizonIs(p);
    FadingNext(p, n);
    LossNext(p, n);
    LostIs(p, n);
    Swap(g, lost, u);
    TimesSum(lost, Times(g, u), 1.0);
    TimesBasics(lost, 1.0);
    TimesSum(g, Times(lost, u) + x, Times(e, Times(k, x)));
    TimesSum(g, Times(lost, u), x);
    Swap(g, e, Times(k, x));
    Swap(g, k, x);
    TimesSum(Times(g, x), k, 1.0);
    TimesBasics(Times(g, x), 1.0);
    TimesSum(e, Times(k, Times(g, x)), Times(g, x));
  }

  lemma LostIs(p: Params, n: nat)
    requires Shaped(p) && 0.0 < p.discount < 1.0
    ensures TIE + TIE + Times(EVALUATIONS as real, Times(p.discount, LossAt(p, n) + TIE))
         == LostPerRound(p) + Times(EVALUATIONS as real, Times(p.discount, Fading(p, n)))
  {
    hide Times, Fading, Horizon, LossAt;
    LossNext(p, n);
    TimesSum(p.discount, Times(TIE, Horizon(p)), Fading(p, n));
    TimesSum(EVALUATIONS as real, Times(p.discount, Times(TIE, Horizon(p))), Times(p.discount, Fading(p, n)));
  }

  lemma NonNegativeErrors(p: Params, n: nat)
    requires Shaped(p) && ParamsOk(p)
    ensures p.discount < 1.0 && Fading(p, n) >= 0.0 && Fading(p, n + 1) <= Fading(p, n)
    ensures LossAt(p, n) >= 0.0 && BelowAt(p, n) >= 0.0 && AboveAt(p, n + 1) <= AboveAt(p, n)
  {
    hide Times, ParamsOk, Horizon, ValueCap;
    DiscountOk(p);
    CapNotNegative(p);
    HorizonIs(p);
    PowRange(p.discount, n);
    Positive(Pow(p.discount, n), ValueCap(p));
    FadingNext(p, n);
    Discounted(p.discount, Fading(p, n));
    Positive(TIE, Horizon(p));
    Positive(p.discount, Times(TIE, Horizon(p)));
    Positive(EVALUATIONS as real, Times(p.discount, Times(TIE, Horizon(p))));
    Positive(LostPerRound(p), Horizon(p));
    Positive(n as real, Fading(p, n));
    Positive(EVALUATIONS as real, Times(n as real, Fading(p, n)));
  }

  // The values after n rounds, against something fixed up to the tie.
  ghost predicate OnTrack(p: Params, w: Values, v: Values, n: nat)
    requires Shaped(p) && p.discount < 1.0
  {
    Rising(p, v, LossAt(p, n)) && Under(v, w, AboveAt(p, n)) && Under(w, v, BelowAt(p, n))
  }

  lemma StartsOnTrack(p: Params, w: Values, v: Values)
    requires Shaped(p) && ParamsOk(p) && Exact(p) && p.discount < 1.0 && Within(w, ValueCap(p))
    requires |v| == NUM_STATES && forall s | 0 <= s < NUM_STATES :: v[s] == 0.0
    ensures OnTrack(p, w, v, 0)
  {
    hide ActionValue, Admissible, Times, ParamsOk, Exact, ValueCap, Horizon, Within;
    DiscountOk(p);
    NonNegativeErrors(p, 0);
    CapNotNegative(p);
    FadingStarts(p);
    WithinIntro(v, ValueCap(p));
    forall s: nat | s < NUM_STATES
      ensures RisesAt(p, v, s, LossAt(p, 0)) && At(v, s) <= At(w, s) + AboveAt(p, 0)
              && At(w, s) <= At(v, s) + BelowAt(p, 0)
    {
      PullIsAdmissible(s);
      BackupWithin(p, v, s, 0);
      assert At(v, s) <= ActionValue(p, v, s, 0) + LossAt(p, 0);
      WithinAt(w, ValueCap(p), s);
    }
    UnderIntro(v, w, AboveAt(p, 0));
    UnderIntro(w, v, BelowAt(p, 0));
  }

  lemma WithinAt(v: Values, bound: real, s: nat)
    requires Within(v, bound) && s < NUM_STATES
    ensures Abs(At(v, s)) <= bound
  {
  }

  lemma FadingStarts(p: Params)
    requires Shaped(p) && ParamsOk(p)
    ensures p.discount < 1.0 && Fading(p, 0) == ValueCap(p)
    ensures LossAt(p, 0) >= ValueCap(p) && AboveAt(p, 0) >= ValueCap(p) && BelowAt(p, 0) >= ValueCap(p)
  {
    hide Times, ParamsOk, Horizon, ValueCap;
    DiscountOk(p);
    HorizonIs(p);
    TimesBasics(ValueCap(p), 1.0);
    Positive(TIE, Horizon(p));
    Positive(p.discount, Times(TIE, Horizon(p)));
    Positive(EVALUATIONS as real, Times(p.discount, Times(TIE, Horizon(p))));
    Positive(LostPerRound(p), Horizon(p));
    TimesBasics(Fading(p, 0), 0.0);
    TimesBasics(EVALUATIONS as real, 0.0);
  }

  lemma RoundOnTrack(p: Params, w: Values, v: Values, policy: seq<nat>, n: nat)
    requires Shaped(p) && ParamsOk(p) && Exact(p) && p.discount < 1.0 && AlmostFixed(p, w, TIE)
    requires |v| == NUM_STATES && PolicyOk(policy) && GreedyFor(p, v, policy) && OnTrack(p, w, v, n)
    ensures OnTrack(p, w, Settled(p, v, policy, EVALUATIONS + 1), n + 1)
  {
    hide Times, ParamsOk, Exact, AlmostFixed, PolicyOk, GreedyFor, Rising, Under, Settled, LossAt, AboveAt, BelowAt,
         Fading;
    DiscountOk(p);
    NonNegativeErrors(p, n);
    LossNext(p, n);
    BelowNext(p, n);
    RoundRises(p, v, policy, LossAt(p, n));
    RoundBelow(p, v, policy, w, TIE, AboveAt(p, n), EVALUATIONS + 1);
    RoundAbove(p, v, policy, w, TIE, BelowAt(p, n), LossAt(p, n));
  }

  // A greedy step from there moves no value by more than the two errors together.
  lemma TrackMoves(p: Params, w: Values, v: Values, policy: seq<nat>, n: nat)
    requires Shaped(p) && ParamsOk(p) && Exact(p) && p.discount < 1.0 && AlmostFixed(p, w, TIE)
    requires |v| == NUM_STATES && PolicyOk(policy) && GreedyFor(p, v, policy) && OnTrack(p, w, v, n)
    ensures Close(Sweep(p, v, policy), v, AboveAt(p, n) + BelowAt(p, n))
  {
    hide Times, ParamsOk, Exact, AlmostFixed, PolicyOk, GreedyFor, Rising, Under, Sweep, LossAt, AboveAt, BelowAt,
         Fading;
    DiscountOk(p);
    NonNegativeErrors(p, n);
    LossNext(p, n);
    var u := Sweep(p, v, policy);
    SweepBelow(p, v, policy, w, TIE, AboveAt(p, n));
    UnderTrans(u, w, v, AboveAt(p, n + 1), BelowAt(p, n));
    GreedyRises(p, v, policy, LossAt(p, n));
    BothWays(u, v, AboveAt(p, n + 1) + BelowAt(p, n), AboveAt(p, n), AboveAt(p, n) + BelowAt(p, n));
  }

  lemma BothWays(u: Values, v: Values, c: real, d: real, e: real)
    requires Under(u, v, c) && Under(v, u, d) && c <= e && d <= e
    ensures Close(u, v, e)
  {
    forall i: nat | i < NUM_STATES ensures Abs(At(u, i) - At(v, i)) <= e {
      UnderAt(u, v, c, i);
      UnderAt(v, u, d, i);
    }
    CloseIntro(u, v, e);
  }

  // What is left of the two errors when the start is forgotten.
  function Floor(p: Params): real
    requires p.discount < 1.0
  {
    Times(TIE, Horizon(p)) + Times(LostPerRound(p), Horizon(p))
  }

  // m terms of the m-th power are at most the horizon.
  lemma ManySmall(p: Params, m: nat)
    requires 0.0 < p.discount < 1.0
    ensures Times(m as real, Pow(p.discount, m)) <= Horizon(p)
  {
    hide Times, Pow;
    var g, u, x := p.discount, Horizon(p), Times(m as real, Pow(p.discount, m));
    PowShrinks(g, m);
    PowRange(g, m);
    HorizonIs(p);
    TimesUnder(u, Times(x, 1.0 - g), 1.0, 0.0);
    TimesBasics(u, 0.0);
    Swap(u, x, 1.0 - g);
    TimesBasics(u, 1.0 - g);
    TimesSum(u, 1.0 - g, g);
    TimesBasics(u, g);
    TimesBasics(x, 1.0);
  }

  // After twice m rounds the start is forgotten as after m, but for a factor.
  lemma FadesTwice(p: Params, m: nat)
    requires Shaped(p) && ParamsOk(p)
    ensures p.discount < 1.0 && Fading(p, m) >= 0.0 && Fading(p, 2 * m) <= Fading(p, m)
    ensures Times((2 * m) as real, Fading(p, 2 * m)) <= 2.0 * Times(Horizon(p), Fading(p, m))
  {
    hide Times, Pow, ParamsOk, ValueCap, Horizon;
    DiscountOk(p);
    NonNegativeErrors(p, m);
    var g, x, y := p.discount, Pow(p.discount, m), Fading(p, m);
    PowRange(g, m);
    PowAdd(g, m, m);
    Regroup(x, x, ValueCap(p));
    assert Fading(p, 2 * m) == Times(x, y);
    TimesUnder(y, x, 1.0, 0.0);
    TimesBasics(y, x);
    ManySmall(p, m);
    Regroup(m as real, x, y);
    TimesBasics(Times(m as real, x), y);
    TimesBasics(Horizon(p), y);
    TimesUnder(y, Times(m as real, x), Horizon(p), 0.0);
    TimesSum(Times(x, y), m as real, m as real);
  }

  // So any tolerance above the floor is met after some number of rounds.
  lemma RoundsExist(p: Params, tol: real) returns (n: nat)
    requires Shaped(p) && ParamsOk(p) && p.discount < 1.0 && tol > Floor(p)
    ensures AboveAt(p, n) + BelowAt(p, n) < tol
  {
    hide Times, Pow, ParamsOk, ValueCap, Horizon, LostPerRound;
    DiscountOk(p);
    CapNotNegative(p);
    HorizonIs(p);
    var e := 2.0 * (EVALUATIONS as real);
    Positive(e, Horizon(p));
    Positive(ValueCap(p), 2.0 + Times(e, Horizon(p)));
    var m := Decays(p.discount, Times(ValueCap(p), 2.0 + Times(e, Horizon(p))), (tol - Floor(p)) / 2.0);
    FadesTwice(p, m);
    Regroup(Pow(p.discount, m), ValueCap(p), 2.0 + Times(e, Horizon(p)));
    FactorOut(Fading(p, m), Horizon(p), Times((2 * m) as real, Fading(p, 2 * m)), EVALUATIONS as real);
    n := 2 * m;
  }

  lemma FactorOut(x: real, u: real, y: real, e: real)
    requires y <= 2.0 * Times(u, x) && e >= 0.0
    ensures Times(e, y) <= Times(x, 2.0 + Times(2.0 * e, u)) - 2.0 * x
  {
    Monotone(e, y, 2.0 * (u * x));
    assert x * (2.0 + (2.0 * e) * u) == x * 2.0 + x * ((2.0 * e) * u);
    assert x * ((2.0 * e) * u) == e * (2.0 * (u * x));
  }

  ghost function RoundsFor(p: Params, tol: real): (n: nat)
    requires Shaped(p) && ParamsOk(p) && p.discount < 1.0 && tol > Floor(p)
    ensures AboveAt(p, n) + BelowAt(p, n) < tol
  {
    SomeRounds(p, tol);
    var n: nat :| AboveAt(p, n) + BelowAt(p, n) < tol;
    n
  }

  lemma SomeRounds(p: Params, tol: real)
    requires Shaped(p) && ParamsOk(p) && p.discount < 1.0 && tol > Floor(p)
    ensures exists n: nat :: AboveAt(p, n) + BelowAt(p, n) < tol
  {
    hide AboveAt, BelowAt, ParamsOk, Floor;
    var n := RoundsExist(p, tol);
  }
}
