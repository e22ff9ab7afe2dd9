// Checking a process before solving it, and solving it by modified policy
// iteration: one greedy improvement, then up to 32 sweeps that follow the policy
// chosen.
module MdpSolve {
  import opened Types
  import opened PolicyState
  import opened MdpSpec
  import opened MdpValue
  import opened MdpFixed
  import opened MdpRounds
  import opened MdpReturn
  import opened Mdp

  const DIVERGENT := 1000000000000.0

  // ---- checking a process ----

  // Rejects exactly the parameter sets whose fields are not what they should be.
  method Validate(p: Params) returns (ok: bool)
    requires Shaped(p)
    ensures ok <==> ParamsOk(p)
  {
    hide RowOk;
    if !(p.dt > 0.0) || !(0.0 < p.discount < 1.0) || !(p.moveTicks > 0.0) || !Prob(p.pMoveAdverse)
      || !(p.inventoryPenalty >= 0.0) {
      return false;
    }
    for i := 0 to IMB_BUCKETS
      invariant forall j | 0 <= j < i :: RowOk(p, j)
    {
      var good := ValidateRow(p, i);
      if !good {
        return false;
      }
    }
    for l := 0 to QUOTE_LEVELS
      invariant forall j | 0 <= j < l :: AllProb(p.pFill[j])
    {
      for q := 0 to QUEUE_BUCKETS
        invariant forall j | 0 <= j < q :: Prob(p.pFill[l][j])
      {
        if !Prob(p.pFill[l][q]) {
          return false;
        }
      }
    }
    for q := 0 to QUEUE_BUCKETS
      invariant forall j | 0 <= j < q :: Prob(p.pAdvance[j])
    {
      if !Prob(p.pAdvance[q]) {
        return false;
      }
    }
    return true;
  }

  method ValidateRow(p: Params, i: nat) returns (ok: bool)
    requires Shaped(p) && i < IMB_BUCKETS
    ensures ok <==> RowOk(p, i)
  {
    if !Prob(p.pUp[i]) || !Prob(p.pDown[i]) || p.pUp[i] + p.pDown[i] > 1.0 {
      return false;
    }
    var row := 0.0;
    for j := 0 to IMB_BUCKETS
      invariant row == SumTo(p.imb[i], j)
      invariant forall k | 0 <= k < j :: Prob(p.imb[i][k])
    {
      if !Prob(p.imb[i][j]) {
        return false;
      }
      row := row + p.imb[i][j];
    }
    return Abs(row - 1.0) <= 0.000001;
  }

  method SumOf(ts: seq<Transition>) returns (sum: real)
    ensures sum == Mass(ts)
  {
    sum := 0.0;
    for k := 0 to |ts|
      invariant sum == Mass(ts[..k])
    {
      assert ts[..k + 1][..k] == ts[..k];
      sum := sum + ts[k].prob;
    }
    assert ts[..|ts|] == ts;
  }

  // The error of one pair's probability mass.
  function Off(p: Params, state: nat, action: nat): real
    requires Shaped(p) && state < NUM_STATES && action < NUM_ACTIONS
  {
    Abs(Mass(Successors(p, state, action)) - 1.0)
  }

  ghost predicate OffBy(p: Params, state: nat, worst: real)
    requires Shaped(p) && state < NUM_STATES
  {
    forall a | 0 <= a < NUM_ACTIONS && Admissible(state, a) :: Off(p, state, a) <= worst
  }

  // The distributions of all admissible pairs have mass one, to nine places.
  ghost predicate SumsToOne(p: Params)
    requires Shaped(p)
  {
    forall s | 0 <= s < NUM_STATES :: OffBy(p, s, 0.000000001)
  }

  method WorstAction(p: Params, state: nat, worst0: real) returns (worst: real, ghost at: nat)
    requires Shaped(p) && state < NUM_STATES
    ensures OffBy(p, state, worst) && worst >= worst0
    ensures worst > worst0 ==> at < NUM_ACTIONS && Admissible(state, at) && Off(p, state, at) == worst
  {
    hide Admissible, Successors;
    worst, at := worst0, 0;
    for a := 0 to NUM_ACTIONS
      invariant worst >= worst0 && forall b | 0 <= b < a && Admissible(state, b) :: Off(p, state, b) <= worst
      invariant worst > worst0 ==> at < NUM_ACTIONS && Admissible(state, at) && Off(p, state, at) == worst
    {
      if Admissible(state, a) {
        var ts := Expand(p, state, a, []);
        assert ts == Successors(p, state, a);
        var sum := SumOf(ts);
        if Abs(sum - 1.0) > worst {
          worst, at := Abs(sum - 1.0), a;
        }
      }
    }
  }

  method Stochastic(p: Params) returns (ok: bool)
    requires Shaped(p)
    ensures ok <==> SumsToOne(p)
  {
    hide OffBy, Off, Admissible;
    var worst := 0.0;
    ghost var ws: nat, wa: nat := 0, 0;
    for s := 0 to NUM_STATES
      invariant worst >= 0.0 && forall t | 0 <= t < s :: OffBy(p, t, worst)
      invariant worst > 0.0 ==> ws < NUM_STATES && wa < NUM_ACTIONS && Admissible(ws, wa) && Off(p, ws, wa) == worst
    {
      ghost var before, at := worst, 0;
      worst, at := WorstAction(p, s, worst);
      OffGrows(p, s, before, worst);
      if worst > before {
        ws, wa := s, at;
      }
    }
    ok := worst <= 0.000000001;
    if ok {
      OffGrows(p, NUM_STATES, worst, 0.000000001);
    } else {
      OffAt(p, ws, wa, 0.000000001);
    }
  }

  lemma OffGrows(p: Params, n: nat, x: real, y: real)
    requires Shaped(p) && n <= NUM_STATES && x <= y && forall t | 0 <= t < n :: OffBy(p, t, x)
    ensures forall t | 0 <= t < n :: OffBy(p, t, y)
  {
    hide Off, Admissible;
    forall t | 0 <= t < n ensures OffBy(p, t, y) {
      assert OffBy(p, t, x);
    }
  }

  lemma OffAt(p: Params, state: nat, action: nat, worst: real)
    requires Shaped(p) && state < NUM_STATES && action < NUM_ACTIONS && Admissible(state, action)
             && Off(p, state, action) > worst
    ensures !OffBy(p, state, worst)
  {
  }

  // For valid parameters the check is about the imbalance rows alone: everything
  // else the expansion does preserves probability exactly.
  lemma StochasticIsRows(p: Params)
    requires Shaped(p) && ParamsOk(p)
    ensures SumsToOne(p) <==> forall i | 0 <= i < IMB_BUCKETS :: Abs(RowSum(p, i) - 1.0) <= 0.000000001
  {
    hide ParamsOk, Successors, RowSum, Decode, Mass;
    forall i: nat | i < IMB_BUCKETS && SumsToOne(p) ensures Abs(RowSum(p, i) - 1.0) <= 0.000000001 {
      FlatStateOf(i);
      SuccessorMass(p, i, 0);
      assert OffBy(p, i, 0.000000001) && Off(p, i, 0) <= 0.000000001;
    }
    if forall i | 0 <= i < IMB_BUCKETS :: Abs(RowSum(p, i) - 1.0) <= 0.000000001 {
      forall s: nat | s < NUM_STATES ensures OffBy(p, s, 0.000000001) {
        forall a: nat | a < NUM_ACTIONS && Admissible(s, a) ensures Off(p, s, a) <= 0.000000001 {
          SuccessorMass(p, s, a);
        }
      }
    }
  }

  // Every imbalance bucket has a state, where pulling both quotes is allowed.
  lemma FlatStateOf(i: nat)
    requires i < IMB_BUCKETS
    ensures i < NUM_STATES && Decode(i).imb == i && Admissible(i, 0)
  {
  }

  // ---- solving ----

  datatype Solution = Solution(policy: seq<nat>, value: Values, sweeps: nat, residual: real, converged: bool,
                               diverged: bool)

  method Backup(p: Params, v: Values, state: nat, action: nat) returns (q: real)
    requires Shaped(p) && state < NUM_STATES && action < NUM_ACTIONS && |v| == NUM_STATES
    ensures q == ActionValue(p, v, state, action)
  {
    hide Successors, Gain;
    var ts := Expand(p, state, action, []);
    assert ts == Successors(p, state, action);
    q := 0.0;
    for k := 0 to |ts|
      invariant q == Expected(ts[..k], p.discount, v)
    {
      assert ts[..k + 1][..k] == ts[..k];
      q := q + Gain(ts[k], p.discount, v);
    }
    assert ts[..|ts|] == ts;
  }

  method BestAction(p: Params, v: Values, state: nat) returns (best: real, action: nat)
    requires Shaped(p) && state < NUM_STATES && |v| == NUM_STATES
    ensures ImprovedAt(p, v, state, best, action)
    ensures best == Sentinel() ==> forall a | 0 <= a < NUM_ACTIONS && Admissible(state, a) ::
              ActionValue(p, v, state, a) <= Sentinel() + TIE
  {
    hide ActionValue, Admissible, Sentinel;
    PullIsAdmissible(state);
    best, action := Sentinel(), 0;
    for a := 0 to NUM_ACTIONS
      invariant action <= a && action < NUM_ACTIONS && Admissible(state, action)
      invariant forall b | 0 <= b < a && Admissible(state, b) :: ActionValue(p, v, state, b) <= best + TIE
      invariant best == Sentinel()
                || (best == ActionValue(p, v, state, action)
                    && forall b | 0 <= b < action && Admissible(state, b) :: ActionValue(p, v, state, b) < best)
    {
      if Admissible(state, a) {
        var q := Backup(p, v, state, a);
        if q > best + TIE {
          best, action := q, a;
        }
      }
    }
  }

  method Improve(p: Params, v: Values) returns (next: Values, policy: seq<nat>, residual: real)
    requires Shaped(p) && |v| == NUM_STATES
    ensures |next| == NUM_STATES && Improved(p, v, next, policy) && residual >= 0.0 && Close(next, v, residual)
    ensures residual == 0.0 || exists s :: 0 <= s < NUM_STATES && Abs(next[s] - v[s]) == residual
    ensures forall s | 0 <= s < NUM_STATES && next[s] == Sentinel() :: ActionValue(p, v, s, 0) <= Sentinel() + TIE
  {
    hide ImprovedAt, ActionValue, Admissible, Sentinel;
    next, policy, residual := [], [], 0.0;
    for s := 0 to NUM_STATES
      invariant |next| == |policy| == s && residual >= 0.0
      invariant forall t | 0 <= t < s :: ImprovedAt(p, v, t, next[t], policy[t])
      invariant forall t | 0 <= t < s :: Abs(next[t] - v[t]) <= residual
      invariant residual == 0.0 || exists t :: 0 <= t < s && Abs(next[t] - v[t]) == residual
      invariant forall t | 0 <= t < s && next[t] == Sentinel() :: ActionValue(p, v, t, 0) <= Sentinel() + TIE
    {
      PullIsAdmissible(s);
      var best, action := BestAction(p, v, s);
      next, policy := next + [best], policy + [action];
      assert next[s] == best;
      if Abs(best - v[s]) > residual {
        residual := Abs(best - v[s]);
      }
    }
  }

  // The policy's own values, one sweep on.
  method Evaluate(p: Params, v: Values, policy: seq<nat>) returns (next: Values)
    requires Shaped(p) && |v| == |policy| == NUM_STATES && forall s | 0 <= s < NUM_STATES :: policy[s] < NUM_ACTIONS
    ensures |next| == NUM_STATES && forall s | 0 <= s < NUM_STATES :: next[s] == ActionValue(p, v, s, policy[s])
  {
    hide ActionValue;
    next := [];
    for s := 0 to NUM_STATES
      invariant |next| == s && forall t | 0 <= t < s :: next[t] == ActionValue(p, v, t, policy[t])
    {
      var q := Backup(p, v, s, policy[s]);
      next := next + [q];
    }
  }

  // The process is a valid one whose rows sum to exactly one, with rewards small
  // enough that no value is as low as the sentinel.
  ghost predicate Modest(p: Params)
    requires Shaped(p)
  {
    ParamsOk(p) && Exact(p) && Sentinel() + TIE < -ValueCap(p)
  }

  // And small enough that half the divergence threshold bounds every value.
  ghost predicate Tame(p: Params)
    requires Shaped(p)
  {
    ParamsOk(p) && Exact(p) && ValueCap(p) <= DIVERGENT / 2.0
  }

  lemma TameIsModest(p: Params)
    requires Shaped(p) && Tame(p)
    ensures Modest(p)
  {
    hide ParamsOk, Exact, Sentinel, ValueCap;
    SentinelIsFar();
  }

  // Every value is within the cap, when the process has one.
  ghost predicate Capped(p: Params, v: Values)
    requires Shaped(p)
  {
    Modest(p) ==> Within(v, ValueCap(p))
  }

  lemma CappedBeats(p: Params, v: Values)
    requires Shaped(p) && Modest(p) && Capped(p, v) && |v| == NUM_STATES
    ensures BeatSentinel(v)
  {
    hide ParamsOk, Exact, Sentinel;
    DiscountOk(p);
    forall i: nat | i < NUM_STATES ensures v[i] != Sentinel() {
      assert Abs(At(v, i)) <= ValueCap(p);
    }
  }

  lemma ImprovedWithin(p: Params, v: Values, next: Values, policy: seq<nat>)
    requires Shaped(p) && Modest(p) && Within(v, ValueCap(p)) && Improved(p, v, next, policy)
    requires forall s | 0 <= s < NUM_STATES && next[s] == Sentinel() :: ActionValue(p, v, s, 0) <= Sentinel() + TIE
    ensures Within(next, ValueCap(p)) && BeatSentinel(next)
  {
    hide ActionValue, ParamsOk, Exact, ValueCap, Admissible, Sentinel, Within;
    DiscountOk(p);
    forall s: nat | s < NUM_STATES ensures Abs(At(next, s)) <= ValueCap(p) && next[s] != Sentinel() {
      assert ImprovedAt(p, v, s, next[s], policy[s]);
      BackupWithin(p, v, s, 0);
      BackupWithin(p, v, s, policy[s]);
    }
    WithinIntro(next, ValueCap(p));
  }

  lemma EvaluatedWithin(p: Params, v: Values, next: Values, policy: seq<nat>)
    requires Shaped(p) && Capped(p, v) && |policy| == |next| == NUM_STATES
    requires forall s | 0 <= s < NUM_STATES :: policy[s] < NUM_ACTIONS && next[s] == ActionValue(p, v, s, policy[s])
    ensures Capped(p, next)
  {
    hide ActionValue, ParamsOk, Exact, ValueCap;
    if Modest(p) {
      DiscountOk(p);
      forall s: nat | s < NUM_STATES ensures Abs(At(next, s)) <= ValueCap(p) {
        BackupWithin(p, v, s, policy[s]);
      }
    }
  }

  lemma WithinDistance(v: Values, w: Values, cap: real, s: nat)
    requires Within(v, cap) && Within(w, cap) && s < NUM_STATES
    ensures Abs(At(v, s) - At(w, s)) <= 2.0 * cap
  {
  }

  lemma ImprovedPolicyOk(p: Params, v: Values, next: Values, policy: seq<nat>)
    requires Shaped(p) && Improved(p, v, next, policy)
    ensures PolicyOk(policy)
  {
    hide ActionValue, Sentinel, Admissible;
    forall s | 0 <= s < NUM_STATES ensures policy[s] < NUM_ACTIONS && Admissible(s, policy[s]) {
      assert ImprovedAt(p, v, s, next[s], policy[s]);
    }
  }

  // How far a converged value can be from a fixed point of the Bellman operator, up
  // to eta.
  function ErrorBound(p: Params, tol: real, eta: real): real
    requires p.discount < 1.0
  {
    (TIE + eta + Times(p.discount, tol)) / (1.0 - p.discount)
  }

  // Values close to every fixed point, that no action beats and the policy keeps up
  // with, all up to the tolerance.
  ghost predicate NearBest(p: Params, tol: real, v: Values, policy: seq<nat>)
    requires Shaped(p)
  {
    && p.discount < 1.0 && PolicyOk(policy)
    && (forall w, eta | AlmostFixed(p, w, eta) :: Close(v, w, ErrorBound(p, tol, eta)))
    && Unbeaten(p, v, TIE + Times(p.discount, tol)) && Attained(p, v, policy, Times(p.discount, tol))
  }

  // What a run of the solver promises about its result.
  ghost predicate Solved(p: Params, tol: real, r: Solution)
    requires Shaped(p)
  {
    && PolicyOk(r.policy) && |r.value| == NUM_STATES && (r.converged ==> r.residual < tol && !r.diverged)
    && (Tame(p) ==> !r.diverged && Modest(p)) && (Modest(p) ==> Within(r.value, ValueCap(p)) && BeatSentinel(r.value))
    && (r.converged && Modest(p) ==> NearBest(p, tol, r.value, r.policy))
    && (r.converged && ParamsOk(p) && Exact(p) && BeatSentinel(r.value) ==> NearBest(p, tol, r.value, r.policy))
  }

  lemma ConvergedIsNear(p: Params, tol: real, residual: real, v: Values, next: Values, policy: seq<nat>)
    requires Shaped(p) && ParamsOk(p) && Exact(p) && Improved(p, v, next, policy) && BeatSentinel(next)
    requires Close(next, v, residual) && residual < tol
    ensures NearBest(p, tol, next, policy)
  {
    hide Improved, ParamsOk, Exact, AlmostFixed, BeatSentinel, Times, PolicyOk, Unbeaten, Attained;
    DiscountOk(p);
    assert Close(next, v, tol);
    ImprovedPolicyOk(p, v, next, policy);
    StepIsOptimal(p, v, next, policy, tol);
    forall w, eta | AlmostFixed(p, w, eta) ensures Close(next, w, ErrorBound(p, tol, eta)) {
      NearFixedPoint(p, v, next, policy, w, tol, eta);
    }
  }

  // As many as the budget has left, up to 32.
  method Settle(p: Params, v: Values, policy: seq<nat>, sweeps: nat, maxSweeps: nat) returns (value: Values, done: nat)
    requires Shaped(p) && |v| == NUM_STATES && PolicyOk(policy) && sweeps <= maxSweeps
    ensures done == Min(sweeps + EVALUATIONS, maxSweeps) && value == Settled(p, v, policy, done - sweeps)
            && |value| == NUM_STATES
    ensures Capped(p, v) ==> Capped(p, value)
  {
    hide ActionValue, Capped, Admissible;
    value, done := v, sweeps;
    var k := 0;
    while k < EVALUATIONS && done < maxSweeps
      invariant k <= EVALUATIONS && done == sweeps + k <= maxSweeps && |value| == NUM_STATES
      invariant value == Settled(p, v, policy, k)
      invariant Capped(p, v) ==> Capped(p, value)
    {
      var next := Evaluate(p, value, policy);
      if Capped(p, value) {
        EvaluatedWithin(p, value, next, policy);
      }
      assert next == Settled(p, v, policy, k + 1);
      value := next;
      done, k := done + 1, k + 1;
    }
  }

  // What an improvement gives a tame process: values still capped, and a residual
  // no greater than the divergence threshold.
  lemma TameImproves(p: Params, v: Values, next: Values, policy: seq<nat>, residual: real)
    requires Shaped(p) && Tame(p) && Capped(p, v) && Improved(p, v, next, policy) && |v| == |next| == NUM_STATES
    requires forall s | 0 <= s < NUM_STATES && next[s] == Sentinel() :: ActionValue(p, v, s, 0) <= Sentinel() + TIE
    requires residual == 0.0 || exists s :: 0 <= s < NUM_STATES && Abs(next[s] - v[s]) == residual
    ensures Capped(p, next) && residual <= DIVERGENT
  {
    hide ActionValue, ParamsOk, Exact, ValueCap, Sentinel, Improved;
    TameIsModest(p);
    DiscountOk(p);
    ImprovedWithin(p, v, next, policy);
    if residual != 0.0 {
      var s :| 0 <= s < NUM_STATES && Abs(next[s] - v[s]) == residual;
      WithinDistance(next, v, ValueCap(p), s);
    }
  }

  lemma StartsCapped(p: Params, value: Values, policy: seq<nat>)
    requires Shaped(p) && |value| == |policy| == NUM_STATES
    requires forall s | 0 <= s < NUM_STATES :: value[s] == 0.0 && policy[s] == 0
    ensures Capped(p, value) && PolicyOk(policy)
  {
    hide ParamsOk, Exact, Admissible, RewardCap;
    forall s | 0 <= s < NUM_STATES ensures Admissible(s, policy[s]) {
      PullIsAdmissible(s);
    }
    if Modest(p) {
      DiscountOk(p);
      CapNotNegative(p);
      forall s: nat | s < NUM_STATES ensures Abs(At(value, s)) <= ValueCap(p) {
      }
    }
  }

  lemma Improves(p: Params, tol: real, v: Values, next: Values, policy: seq<nat>, residual: real)
    requires Shaped(p) && Capped(p, v) && Improved(p, v, next, policy) && |v| == |next| == NUM_STATES
             && Close(next, v, residual)
    requires forall s | 0 <= s < NUM_STATES && next[s] == Sentinel() :: ActionValue(p, v, s, 0) <= Sentinel() + TIE
    requires residual == 0.0 || exists s :: 0 <= s < NUM_STATES && Abs(next[s] - v[s]) == residual
    ensures Capped(p, next) && (Tame(p) ==> residual <= DIVERGENT)
    ensures residual < tol && ParamsOk(p) && Exact(p) && BeatSentinel(next) ==> NearBest(p, tol, next, policy)
  {
    hide Improved, BeatSentinel, NearBest, ActionValue, Sentinel, ParamsOk, Exact, Close, ValueCap, Within;
    if Modest(p) {
      DiscountOk(p);
      ImprovedWithin(p, v, next, policy);
    }
    if Tame(p) {
      TameImproves(p, v, next, policy, residual);
    }
    if residual < tol && ParamsOk(p) && Exact(p) && BeatSentinel(next) {
      DiscountOk(p);
      ConvergedIsNear(p, tol, residual, v, next, policy);
    }
  }

  lemma SolvedIs(p: Params, tol: real, r: Solution)
    requires Shaped(p) && PolicyOk(r.policy) && |r.value| == NUM_STATES && Capped(p, r.value)
    requires r.converged ==> r.residual < tol && !r.diverged
    requires r.diverged ==> !Tame(p)
    requires r.converged && ParamsOk(p) && Exact(p) && BeatSentinel(r.value) ==> NearBest(p, tol, r.value, r.policy)
    ensures Solved(p, tol, r)
  {
    hide PolicyOk, Exact, BeatSentinel, NearBest, ParamsOk, ValueCap;
    if Tame(p) {
      TameIsModest(p);
    }
    if Modest(p) {
      DiscountOk(p);
      CappedBeats(p, r.value);
    }
  }

  // The policy a converged run returns earns, over any number of steps, what any plan
  // earns, up to the slack and to what lies beyond those steps.
  lemma SolutionIsBest(p: Params, tol: real, r: Solution, plan: Plan, s: nat)
    requires Shaped(p) && Modest(p) && Solved(p, tol, r) && r.converged && tol >= 0.0 && PlanOk(plan) && s < NUM_STATES
    ensures p.discount < 1.0 && PolicyOk(r.policy)
    ensures var beyond := Times(Pow(p.discount, |plan|), ValueCap(p));
            At(Returns(p, plan), s) <= At(Returns(p, Always(r.policy, |plan|)), s) + 2.0 * beyond
                                       + Times(TIE + Times(p.discount, tol), Horizon(p))
                                       + Times(Times(p.discount, tol), Horizon(p))
  {
    hide PolicyOk, AlmostFixed, Exact, ErrorBound, ParamsOk, ValueCap, Unbeaten, Attained, Times, Horizon, Pow, Returns;
    DiscountOk(p);
    PolicyIsBest(p, r.value, r.policy, plan, tol, ValueCap(p), s);
  }

  // ---- convergence ----

  // The step beat the sentinel everywhere: it is a sweep of a near-greedy policy.
  lemma ImprovedIsGreedy(p: Params, v: Values, next: Values, policy: seq<nat>)
    requires Shaped(p) && Improved(p, v, next, policy) && BeatSentinel(next)
    ensures PolicyOk(policy) && GreedyFor(p, v, policy) && next == Sweep(p, v, policy)
  {
    hide ActionValue, Sentinel, Admissible;
    ImprovedPolicyOk(p, v, next, policy);
    forall s | 0 <= s < NUM_STATES ensures GreedyAt(p, v, policy, s) && next[s] == Sweep(p, v, policy)[s] {
      assert ImprovedAt(p, v, s, next[s], policy[s]);
    }
  }

  // Where a run on a tame process stands, before its next greedy step.
  ghost predicate Underway(p: Params, w: Values, v: Values, n: nat, sweeps: nat, maxSweeps: nat)
    requires Shaped(p)
  {
    && sweeps <= (EVALUATIONS + 1) * n
    && (sweeps < maxSweeps ==> sweeps == (EVALUATIONS + 1) * n && p.discount < 1.0 && OnTrack(p, w, v, n))
  }

  // Enough sweeps for a tolerance above the floor.
  ghost predicate Generous(p: Params, tol: real, maxSweeps: nat)
    requires Shaped(p)
  {
    Tame(p) && p.discount < 1.0 && tol > Floor(p) && maxSweeps > (EVALUATIONS + 1) * RoundsFor(p, tol)
  }

  // On a tame process a greedy step is near-greedy, and moves no value by more than
  // the errors of its round.
  lemma StepMoves(p: Params, w: Values, v: Values, next: Values, policy: seq<nat>, residual: real, n: nat)
    requires Shaped(p) && Tame(p) && Capped(p, v) && Improved(p, v, next, policy) && |v| == |next| == NUM_STATES
    requires forall s | 0 <= s < NUM_STATES && next[s] == Sentinel() :: ActionValue(p, v, s, 0) <= Sentinel() + TIE
    requires residual == 0.0 || exists s :: 0 <= s < NUM_STATES && Abs(next[s] - v[s]) == residual
    requires p.discount < 1.0 && AlmostFixed(p, w, TIE) && OnTrack(p, w, v, n)
    ensures PolicyOk(policy) && GreedyFor(p, v, policy) && next == Sweep(p, v, policy)
    ensures residual <= AboveAt(p, n) + BelowAt(p, n)
  {
    hide ActionValue, ParamsOk, Exact, ValueCap, Sentinel, Improved, OnTrack, AlmostFixed, Sweep, AboveAt, BelowAt,
         GreedyFor;
    TameIsModest(p);
    DiscountOk(p);
    ImprovedWithin(p, v, next, policy);
    ImprovedIsGreedy(p, v, next, policy);
    TrackMoves(p, w, v, policy, n);
    if residual != 0.0 {
      var s :| 0 <= s < NUM_STATES && Abs(next[s] - v[s]) == residual;
      CloseAt(next, v, AboveAt(p, n) + BelowAt(p, n), s);
    } else {
      CloseAt(next, v, AboveAt(p, n) + BelowAt(p, n), 0);
    }
  }

  // A step that did not converge, and the sweeps after it, make a round.
  lemma RoundDone(p: Params, w: Values, v: Values, policy: seq<nat>, value: Values, n: nat, sweeps: nat, done: nat,
                  maxSweeps: nat)
    requires Shaped(p) && Tame(p) && |v| == NUM_STATES && AlmostFixed(p, w, TIE) && PolicyOk(policy)
             && GreedyFor(p, v, policy)
    requires sweeps < maxSweeps && Underway(p, w, v, n, sweeps, maxSweeps)
    requires done == Min(sweeps + 1 + EVALUATIONS, maxSweeps)
    requires value == Settled(p, Sweep(p, v, policy), policy, done - (sweeps + 1))
    ensures Underway(p, w, value, n + 1, done, maxSweeps)
  {
    hide ParamsOk, Exact, OnTrack, AlmostFixed, Sweep, PolicyOk, GreedyFor, Settled;
    if done < maxSweeps {
      DiscountOk(p);
      SettledSplit(p, v, policy, EVALUATIONS);
      RoundOnTrack(p, w, v, policy, n);
    }
  }

  lemma StartsUnderway(p: Params, value: Values, maxSweeps: nat) returns (w: Values)
    requires Shaped(p) && |value| == NUM_STATES && forall s | 0 <= s < NUM_STATES :: value[s] == 0.0
    ensures Tame(p) ==> AlmostFixed(p, w, TIE) && Underway(p, w, value, 0, 0, maxSweeps)
  {
    hide ParamsOk, Exact, ValueCap, OnTrack, AlmostFixed;
    w := value;
    if Tame(p) {
      w := AlmostFixedExists(p, TIE);
      StartsOnTrack(p, w, value);
    }
  }

  // A run with sweeps enough has not used up its rounds.
  ghost predicate InTime(p: Params, tol: real, maxSweeps: nat, n: nat)
    requires Shaped(p)
  {
    Generous(p, tol, maxSweeps) ==> n <= RoundsFor(p, tol)
  }

  lemma StillInTime(p: Params, tol: real, maxSweeps: nat, n: nat, residual: real)
    requires Shaped(p) && InTime(p, tol, maxSweeps, n) && residual >= tol
    requires Tame(p) ==> p.discount < 1.0 && residual <= AboveAt(p, n) + BelowAt(p, n)
    ensures InTime(p, tol, maxSweeps, n + 1)
  {
    hide Tame, Floor, AboveAt, BelowAt;
  }

  lemma NotUsedUp(p: Params, tol: real, maxSweeps: nat, n: nat, w: Values, v: Values, sweeps: nat)
    requires Shaped(p) && InTime(p, tol, maxSweeps, n) && (Tame(p) ==> Underway(p, w, v, n, sweeps, maxSweeps))
    ensures Generous(p, tol, maxSweeps) ==> sweeps < maxSweeps
  {
    hide Tame, Floor, OnTrack;
  }

  // Improves and settles until a greedy step moves no value by `tol`, or the
  // backups run out; on a tame process they do not, given enough of them.
  method Solve(p: Params, tol: real, maxSweeps: nat) returns (r: Solution)
    requires Shaped(p)
    ensures Solved(p, tol, r) && r.sweeps <= maxSweeps
    ensures !r.converged && !r.diverged ==> r.sweeps == maxSweeps
    ensures Generous(p, tol, maxSweeps) ==> r.converged
  {
    hide Improved, Capped, Tame, BeatSentinel, NearBest, ActionValue, Sentinel, PolicyOk, AlmostFixed, ParamsOk,
         Exact, Underway, Generous, InTime, Sweep, Settled;
    var value := seq(NUM_STATES, _ => 0.0);
    var policy := seq(NUM_STATES, _ => 0);
    var sweeps, residual, converged, diverged := 0, 0.0, false, false;
    StartsCapped(p, value, policy);
    ghost var n: nat := 0;
    ghost var w := StartsUnderway(p, value, maxSweeps);
    StartsInTime(p, tol, maxSweeps);
    while sweeps < maxSweeps && !converged && !diverged
      invariant sweeps <= maxSweeps && |value| == NUM_STATES && PolicyOk(policy) && Capped(p, value)
      invariant converged ==> residual < tol && !diverged
      invariant diverged ==> !Tame(p)
      invariant converged && ParamsOk(p) && Exact(p) && BeatSentinel(value) ==> NearBest(p, tol, value, policy)
      invariant Tame(p) && !converged ==> AlmostFixed(p, w, TIE) && Underway(p, w, value, n, sweeps, maxSweeps)
      invariant InTime(p, tol, maxSweeps, n)
      decreases maxSweeps - sweeps
    {
      ghost var v, before := value, sweeps;
      value, policy, residual := Improve(p, value);
      ImprovedPolicyOk(p, v, value, policy);
      Improves(p, tol, v, value, policy, residual);
      if Tame(p) {
        UnderwayIs(p, w, v, n, sweeps, maxSweeps);
        StepMoves(p, w, v, value, policy, residual, n);
      }
      sweeps := sweeps + 1;
      if residual < tol {
        converged := true;
      } else if residual > DIVERGENT {
        diverged := true;
      } else {
        StillInTime(p, tol, maxSweeps, n, residual);
        value, sweeps := Settle(p, value, policy, sweeps, maxSweeps);
        if Tame(p) {
          RoundDone(p, w, v, policy, value, n, before, sweeps, maxSweeps);
        }
        n := n + 1;
      }
    }
    if !converged {
      NotUsedUp(p, tol, maxSweeps, n, w, value, sweeps);
      GenerousIsTame(p, tol, maxSweeps);
    }
    r := Solution(policy, value, sweeps, residual, converged, diverged);
    SolvedIs(p, tol, r);
  }

  lemma StartsInTime(p: Params, tol: real, maxSweeps: nat)
    requires Shaped(p)
    ensures InTime(p, tol, maxSweeps, 0)
  {
  }

  lemma UnderwayIs(p: Params, w: Values, v: Values, n: nat, sweeps: nat, maxSweeps: nat)
    requires Shaped(p) && Underway(p, w, v, n, sweeps, maxSweeps) && sweeps < maxSweeps
    ensures p.discount < 1.0 && OnTrack(p, w, v, n)
  {
  }

  lemma GenerousIsTame(p: Params, tol: real, maxSweeps: nat)
    requires Shaped(p)
    ensures Generous(p, tol, maxSweeps) ==> Tame(p)
  {
  }
}
