// What a policy earns, defined on its own, step by step; that backups compute it; and
// that a converged solution is worth, and its policy earns, as much as any plan could,
// up to the tolerance.
module MdpReturn {
  import opened PolicyState
  import opened MdpSpec
  import opened MdpValue
  import opened MdpFixed
  import opened MdpRounds

  // ---- the two sums behind an action's value ----

  function MeanReward(ts: seq<Transition>): real {
    if ts == [] then 0.0 else MeanReward(ts[..|ts| - 1]) + ts[|ts| - 1].prob * ts[|ts| - 1].reward
  }

  function MeanValue(ts: seq<Transition>, v: Values): real {
    if ts == [] then 0.0 else MeanValue(ts[..|ts| - 1], v) + ts[|ts| - 1].prob * At(v, ts[|ts| - 1].next)
  }

  lemma {:induction false} ExpectedSplits(ts: seq<Transition>, discount: real, v: Values)
    ensures Expected(ts, discount, v) == MeanReward(ts) + discount * MeanValue(ts, v)
    decreases |ts|
  {
    hide Gain;
    if ts != [] {
      var n := |ts| - 1;
      ExpectedSplits(ts[..n], discount, v);
      GainSplits(ts[n], discount, v, MeanValue(ts[..n], v));
    }
  }

  lemma GainSplits(t: Transition, g: real, v: Values, before: real)
    ensures g * before + Gain(t, g, v) == t.prob * t.reward + g * (before + t.prob * At(v, t.next))
  {
    var x := At(v, t.next);
    assert t.prob * (t.reward + g * x) == t.prob * t.reward + t.prob * (g * x);
    assert t.prob * (g * x) == g * (t.prob * x);
  }

  // An action is worth its mean reward and the discounted mean of where it leads.
  lemma ValueSplits(p: Params, v: Values, state: nat, action: nat)
    requires Shaped(p) && state < NUM_STATES && action < NUM_ACTIONS
    ensures var ts := Successors(p, state, action);
            ActionValue(p, v, state, action) == MeanReward(ts) + p.discount * MeanValue(ts, v)
  {
    hide Expected, Successors;
    ExpectedSplits(Successors(p, state, action), p.discount, v);
  }

  // Paying c more whatever happens is worth c, for a distribution.
  function Raised(ts: seq<Transition>, c: real): seq<Transition> {
    if ts == [] then [] else Raised(ts[..|ts| - 1], c) + [ts[|ts| - 1].(reward := ts[|ts| - 1].reward + c)]
  }

  lemma {:induction false} RaisedIsWorth(ts: seq<Transition>, c: real, discount: real, v: Values)
    ensures Expected(Raised(ts, c), discount, v) == Expected(ts, discount, v) + Times(c, Mass(ts))
    decreases |ts|
  {
    hide Gain, Times;
    TimesZero(c);
    if ts != [] {
      var n := |ts| - 1;
      RaisedIsWorth(ts[..n], c, discount, v);
      var t := ts[n].(reward := ts[n].reward + c);
      var r := Raised(ts, c);
      assert r == Raised(ts[..n], c) + [t];
      assert r[..|r| - 1] == Raised(ts[..n], c) && r[|r| - 1] == t;
      RaisedGain(ts[n], c, discount, v);
      TimesSum(c, Mass(ts[..n]), ts[n].prob);
    }
  }

  lemma RaisedGain(t: Transition, c: real, g: real, v: Values)
    ensures Gain(t.(reward := t.reward + c), g, v) == Gain(t, g, v) + Times(c, t.prob)
  {
    var y := g * At(v, t.next);
    assert t.prob * ((t.reward + c) + y) == t.prob * (t.reward + y) + t.prob * c;
  }

  // ---- what a plan earns ----

  // A plan says, for each step to come, what to do in each state.
  type Plan = seq<seq<nat>>

  ghost predicate PlanOk(plan: Plan) {
    forall k | 0 <= k < |plan| :: PolicyOk(plan[k])
  }

  // The discounted mean reward of following it, from each state.
  ghost function Returns(p: Params, plan: Plan): (w: Values)
    requires Shaped(p) && PlanOk(plan)
    ensures |w| == NUM_STATES
    decreases |plan|
  {
    if plan == [] then seq(NUM_STATES, _ => 0.0)
    else
      assert PolicyOk(plan[0]);
      var later := Returns(p, Later(plan));
      seq(NUM_STATES, s requires 0 <= s < NUM_STATES =>
        MeanReward(Successors(p, s, plan[0][s])) + p.discount * MeanValue(Successors(p, s, plan[0][s]), later))
  }

  function Later(plan: Plan): (rest: Plan)
    requires plan != []
    ensures |rest| == |plan| - 1
    ensures PlanOk(plan) ==> PlanOk(rest)
  {
    assert PlanOk(plan) ==> forall k | 0 <= k < |plan| - 1 :: plan[1..][k] == plan[k + 1] && PolicyOk(plan[k + 1]);
    plan[1..]
  }

  lemma ReturnsAre(p: Params, plan: Plan, s: nat)
    requires Shaped(p) && PlanOk(plan) && plan != [] && s < NUM_STATES
    ensures PolicyOk(plan[0]) && At(Returns(p, plan), s) == ActionValue(p, Returns(p, Later(plan)), s, plan[0][s])
  {
    hide Successors, ActionValue, PolicyOk, MeanReward, MeanValue, Later;
    PolicyAt(plan[0], s);
    ValueSplits(p, Returns(p, Later(plan)), s, plan[0][s]);
  }

  lemma PolicyAt(policy: seq<nat>, s: nat)
    requires PolicyOk(policy) && s < NUM_STATES
    ensures |policy| == NUM_STATES && policy[s] < NUM_ACTIONS && Admissible(s, policy[s])
  {
  }

  // ---- values no plan beats ----

  // No admissible action is worth more than this much above the value.
  ghost predicate Unbeaten(p: Params, v: Values, slack: real)
    requires Shaped(p)
  {
    forall s | 0 <= s < NUM_STATES :: UnbeatenAt(p, v, s, slack)
  }

  ghost predicate UnbeatenAt(p: Params, v: Values, s: nat, slack: real)
    requires Shaped(p) && s < NUM_STATES
  {
    forall a | 0 <= a < NUM_ACTIONS && Admissible(s, a) :: ActionValue(p, v, s, a) <= At(v, s) + slack
  }

  // The policy's own actions are worth no less than this much below it.
  ghost predicate Attained(p: Params, v: Values, policy: seq<nat>, slack: real)
    requires Shaped(p) && PolicyOk(policy)
  {
    forall s | 0 <= s < NUM_STATES :: At(v, s) <= ActionValue(p, v, s, policy[s]) + slack
  }

  // What n steps of slack come to, and the bound on what lies beyond them.
  function Allowance(p: Params, slack: real, bound: real, n: nat): real {
    if n == 0 then bound else Times(p.discount, Allowance(p, slack, bound, n - 1)) + slack
  }

  lemma {:induction false} AllowanceIs(p: Params, slack: real, bound: real, n: nat)
    requires 0.0 < p.discount < 1.0 && slack >= 0.0
    ensures Allowance(p, slack, bound, n) <= Times(Pow(p.discount, n), bound) + Times(slack, Horizon(p))
  {
    hide Times, Horizon;
    HorizonIs(p);
    if n == 0 {
      TimesBasics(bound, 1.0);
      Positive(slack, Horizon(p));
    } else {
      AllowanceIs(p, slack, bound, n - 1);
      var x, y := Times(Pow(p.discount, n - 1), bound), Times(slack, Horizon(p));
      TimesUnder(p.discount, Allowance(p, slack, bound, n - 1), x + y, 0.0);
      TimesBasics(p.discount, 0.0);
      TimesSum(p.discount, x, y);
      Regroup(p.discount, Pow(p.discount, n - 1), bound);
      Swap(p.discount, slack, Horizon(p));
      TimesSum(slack, Times(p.discount, Horizon(p)), 1.0);
      TimesBasics(slack, 1.0);
    }
  }

  lemma {:induction false} NoPlanBeats(p: Params, v: Values, plan: Plan, slack: real, bound: real)
    requires Shaped(p) && ParamsOk(p) && Exact(p) && PlanOk(plan) && Unbeaten(p, v, slack) && Within(v, bound)
    ensures Under(Returns(p, plan), v, Allowance(p, slack, bound, |plan|))
    decreases |plan|
  {
    hide ActionValue, Admissible, ParamsOk, Exact, Times, PolicyOk, Within, Under, Later, Returns, Unbeaten, UnbeatenAt;
    if plan == [] {
      NothingReturned(p);
      forall s: nat | s < NUM_STATES ensures At(Returns(p, plan), s) <= At(v, s) + bound {
        WithinAt(v, bound, s);
      }
      UnderIntro(Returns(p, plan), v, bound);
    } else {
      var c := Allowance(p, slack, bound, |plan| - 1);
      NoPlanBeats(p, v, Later(plan), slack, bound);
      forall s: nat | s < NUM_STATES ensures At(Returns(p, plan), s) <= At(v, s) + (Times(p.discount, c) + slack) {
        ReturnsAre(p, plan, s);
        PolicyAt(plan[0], s);
        ActionUnder(p, Returns(p, Later(plan)), v, c, s, plan[0][s]);
        UnbeatenBy(p, v, s, slack, plan[0][s]);
      }
      UnderIntro(Returns(p, plan), v, Times(p.discount, c) + slack);
    }
  }

  // The policy, n times over.
  function Always(policy: seq<nat>, n: nat): (plan: Plan)
    ensures |plan| == n
    ensures PolicyOk(policy) ==> PlanOk(plan)
  {
    seq(n, _ => policy)
  }

  lemma {:induction false} PolicyEarns(p: Params, v: Values, policy: seq<nat>, n: nat, slack: real, bound: real)
    requires Shaped(p) && ParamsOk(p) && Exact(p) && PolicyOk(policy) && Attained(p, v, policy, slack)
             && Within(v, bound)
    ensures Under(v, Returns(p, Always(policy, n)), Allowance(p, slack, bound, n))
  {
    hide ActionValue, Admissible, ParamsOk, Exact, Times, PolicyOk, Within, Under, Later, Returns, Attained;
    if n == 0 {
      NothingReturned(p);
      assert Always(policy, 0) == [];
      forall s: nat | s < NUM_STATES ensures At(v, s) <= At(Returns(p, Always(policy, 0)), s) + bound {
        WithinAt(v, bound, s);
      }
      UnderIntro(v, Returns(p, Always(policy, 0)), bound);
    } else {
      var c := Allowance(p, slack, bound, n - 1);
      PolicyEarns(p, v, policy, n - 1, slack, bound);
      LaterAlways(policy, n);
      forall s: nat | s < NUM_STATES
        ensures At(v, s) <= At(Returns(p, Always(policy, n)), s) + (Times(p.discount, c) + slack)
      {
        ReturnsAre(p, Always(policy, n), s);
        PolicyAt(policy, s);
        AttainedAt(p, v, policy, slack, s);
        ActionUnder(p, v, Returns(p, Always(policy, n - 1)), c, s, policy[s]);
      }
      UnderIntro(v, Returns(p, Always(policy, n)), Times(p.discount, c) + slack);
    }
  }

  lemma NothingReturned(p: Params)
    requires Shaped(p)
    ensures PlanOk([]) && forall s | 0 <= s < NUM_STATES :: At(Returns(p, []), s) == 0.0
  {
  }

  lemma UnbeatenBy(p: Params, v: Values, s: nat, slack: real, a: nat)
    requires Shaped(p) && Unbeaten(p, v, slack) && s < NUM_STATES && a < NUM_ACTIONS && Admissible(s, a)
    ensures ActionValue(p, v, s, a) <= At(v, s) + slack
  {
    assert UnbeatenAt(p, v, s, slack);
  }

  lemma AttainedAt(p: Params, v: Values, policy: seq<nat>, slack: real, s: nat)
    requires Shaped(p) && PolicyOk(policy) && Attained(p, v, policy, slack) && s < NUM_STATES
    ensures At(v, s) <= ActionValue(p, v, s, policy[s]) + slack
  {
  }

  lemma LaterAlways(policy: seq<nat>, n: nat)
    requires n > 0
    ensures Later(Always(policy, n)) == Always(policy, n - 1) && Always(policy, n)[0] == policy
  {
  }

  // ---- a step that hardly moved ----

  // The values a greedy step left, having moved none by as much as tol: no action
  // beats them by more than the tie and the discounted tolerance, and the policy
  // chosen comes within the latter.
  lemma StepIsOptimal(p: Params, v: Values, next: Values, policy: seq<nat>, tol: real)
    requires Shaped(p) && ParamsOk(p) && Exact(p) && Improved(p, v, next, policy) && BeatSentinel(next)
    requires PolicyOk(policy) && Close(next, v, tol)
    ensures Unbeaten(p, next, TIE + Times(p.discount, tol)) && Attained(p, next, policy, Times(p.discount, tol))
  {
    hide ActionValue, Admissible, ParamsOk, Exact, Times, Sentinel, Close;
    forall s | 0 <= s < NUM_STATES
      ensures UnbeatenAt(p, next, s, TIE + Times(p.discount, tol))
      ensures At(next, s) <= ActionValue(p, next, s, policy[s]) + Times(p.discount, tol)
    {
      assert ImprovedAt(p, v, s, next[s], policy[s]);
      forall a | 0 <= a < NUM_ACTIONS && Admissible(s, a)
        ensures ActionValue(p, next, s, a) <= At(next, s) + (TIE + Times(p.discount, tol))
      {
        Contraction(p, next, v, tol, s, a);
      }
      Contraction(p, next, v, tol, s, policy[s]);
    }
  }

  // What a converged solution is worth: over any number of steps, no plan, however it
  // changes from step to step, earns more than the value, and the policy earns no
  // less, up to the slack and to what lies beyond those steps; so the policy earns
  // what any plan does.
  lemma PolicyIsBest(p: Params, v: Values, policy: seq<nat>, plan: Plan, tol: real, bound: real, s: nat)
    requires Shaped(p) && ParamsOk(p) && Exact(p) && PolicyOk(policy) && PlanOk(plan) && tol >= 0.0 && s < NUM_STATES
    requires Unbeaten(p, v, TIE + Times(p.discount, tol)) && Attained(p, v, policy, Times(p.discount, tol))
             && Within(v, bound)
    ensures p.discount < 1.0
    ensures var beyond := Times(Pow(p.discount, |plan|), bound);
            var over, short := Times(TIE + Times(p.discount, tol), Horizon(p)),
              Times(Times(p.discount, tol), Horizon(p));
            && At(Returns(p, plan), s) <= At(v, s) + beyond + over
            && At(v, s) <= At(Returns(p, Always(policy, |plan|)), s) + beyond + short
            && At(Returns(p, plan), s) <= At(Returns(p, Always(policy, |plan|)), s) + 2.0 * beyond + over + short
  {
    hide ActionValue, Admissible, ParamsOk, Exact, Times, PolicyOk, Within, Under, Unbeaten, Attained, Horizon, Pow,
         Returns;
    DiscountOk(p);
    Positive(p.discount, tol);
    var n, over, short := |plan|, TIE + Times(p.discount, tol), Times(p.discount, tol);
    NoPlanBeats(p, v, plan, over, bound);
    PolicyEarns(p, v, policy, n, short, bound);
    AllowanceIs(p, over, bound, n);
    AllowanceIs(p, short, bound, n);
    UnderAt(Returns(p, plan), v, Allowance(p, over, bound, n), s);
    UnderAt(v, Returns(p, Always(policy, n)), Allowance(p, short, bound, n), s);
  }
}
