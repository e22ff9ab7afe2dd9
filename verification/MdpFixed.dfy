// Almost fixed points of the Bellman operator exist, however little is allowed for:
// exact backups from nothing come as near as one likes.
module MdpFixed {
  import opened PolicyState
  import opened MdpSpec
  import opened MdpValue

  // ---- powers of a discount ----

  function Pow(g: real, n: nat): real {
    if n == 0 then 1.0 else Times(g, Pow(g, n - 1))
  }

  lemma {:induction false} PowRange(g: real, n: nat)
    requires 0.0 < g < 1.0
    ensures 0.0 < Pow(g, n) <= 1.0
  {
    if n > 0 {
      PowRange(g, n - 1);
      PositiveProduct(g, Pow(g, n - 1));
      Monotone(Pow(g, n - 1), g, 1.0);
    }
  }

  lemma PositiveProduct(x: real, y: real)
    requires x > 0.0 && y > 0.0
    ensures Times(x, y) > 0.0 && x * y > 0.0
  {
  }

  lemma {:induction false} PowAdd(g: real, m: nat, n: nat)
    ensures Pow(g, m + n) == Times(Pow(g, m), Pow(g, n))
  {
    if m > 0 {
      PowAdd(g, m - 1, n);
      Regroup(g, Pow(g, m - 1), Pow(g, n));
    }
  }

  lemma Regroup(x: real, y: real, z: real)
    ensures Times(Times(x, y), z) == Times(x, Times(y, z))
  {
  }

  // n terms, none less than the last, are at most the whole series.
  lemma {:induction false} PowShrinks(g: real, n: nat)
    requires 0.0 < g < 1.0
    ensures Times(Times(n as real, Pow(g, n)), 1.0 - g) <= 1.0 - Pow(g, n)
  {
    if n > 0 {
      PowShrinks(g, n - 1);
      PowRange(g, n - 1);
      ShrinkStep(g, Pow(g, n - 1), (n - 1) as real);
    }
  }

  lemma ShrinkStep(g: real, x: real, k: real)
    requires 0.0 < g < 1.0 && 0.0 < x <= 1.0 && Times(Times(k, x), 1.0 - g) <= 1.0 - x
    ensures Times(Times(k + 1.0, Times(g, x)), 1.0 - g) <= 1.0 - Times(g, x)
  {
    hide Times;
    var y := Times(g, x);
    TimesBasics(x, g);
    TimesBasics(g, x);
    TimesUnder(x, g, 1.0, 0.0);
    assert y <= 1.0;
    ShrinkSplit(g, x, k);
    TimesUnder(g, Times(Times(k, x), 1.0 - g), 1.0 - x, 0.0);
    OneLess(g, x);
    OneLess(y, g);
    TimesBasics(1.0 - g, y);
    TimesUnder(1.0 - g, y, 1.0, 0.0);
    TimesBasics(y, 1.0 - g);
  }

  lemma ShrinkSplit(g: real, x: real, k: real)
    ensures Times(Times(k + 1.0, Times(g, x)), 1.0 - g)
         == Times(g, Times(Times(k, x), 1.0 - g)) + Times(Times(g, x), 1.0 - g)
  {
    assert ((k + 1.0) * (g * x)) * (1.0 - g) == (k * (g * x)) * (1.0 - g) + (g * x) * (1.0 - g);
    assert k * (g * x) == g * (k * x);
    assert (g * (k * x)) * (1.0 - g) == g * ((k * x) * (1.0 - g));
  }

  lemma OneLess(c: real, x: real)
    ensures Times(c, 1.0 - x) == c - Times(c, x)
  {
  }

  lemma TimesBasics(x: real, y: real)
    ensures Times(x, y) == Times(y, x) && Times(x, 1.0) == x == Times(1.0, x) && Times(x, 0.0) == 0.0 == Times(0.0, x)
  {
  }

  lemma TimesUnder(k: real, x: real, y: real, c: real)
    requires k >= 0.0 && x <= y + c
    ensures Times(k, x) <= Times(k, y) + Times(k, c)
  {
    Monotone(k, x, y + c);
    TimesSum(k, y, c);
  }

  // Powers of a discount bring anything below any bound.
  lemma Decays(g: real, x: real, bound: real) returns (n: nat)
    requires 0.0 < g < 1.0 && x >= 0.0 && bound > 0.0
    ensures Times(Pow(g, n), x) <= bound
  {
    n := Enough(x, bound, 1.0 - g);
    PowRange(g, n);
    PowShrinks(g, n);
    DecayStep(Pow(g, n), n as real, x, bound, 1.0 - g);
  }

  lemma Enough(x: real, bound: real, h: real) returns (n: nat)
    requires x >= 0.0 && bound > 0.0 && h > 0.0
    ensures x <= Times(n as real, Times(bound, h))
  {
    PositiveProduct(bound, h);
    var q := Times(bound, h);
    var r := x / q;
    assert r * q == x;
    assert r >= 0.0 by { QuotientNotNegative(x, q); }
    n := r.Floor + 1;
    Monotone(q, r, n as real);
  }

  lemma DecayStep(y: real, n: real, x: real, bound: real, h: real)
    requires y >= 0.0 && x <= Times(n, Times(bound, h)) && bound > 0.0 && Times(Times(n, y), h) <= 1.0
    ensures Times(y, x) <= bound
  {
    Monotone(y, x, n * (bound * h));
    assert y * (n * (bound * h)) == bound * ((n * y) * h);
    Monotone(bound, (n * y) * h, 1.0);
  }

  // ---- exact backups ----

  ghost predicate IsBestAction(p: Params, v: Values, state: nat, action: nat)
    requires Shaped(p) && state < NUM_STATES
  {
    action < NUM_ACTIONS && Admissible(state, action)
    && forall a | 0 <= a < NUM_ACTIONS && Admissible(state, a) ::
       ActionValue(p, v, state, a) <= ActionValue(p, v, state, action)
  }

  lemma {:induction false} BestUpTo(p: Params, v: Values, state: nat, n: nat) returns (action: nat)
    requires Shaped(p) && state < NUM_STATES && 0 < n <= NUM_ACTIONS
    ensures action < n && Admissible(state, action)
    ensures forall a | 0 <= a < n && Admissible(state, a) ::
            ActionValue(p, v, state, a) <= ActionValue(p, v, state, action)
  {
    hide ActionValue, Admissible;
    if n == 1 {
      PullIsAdmissible(state);
      action := 0;
    } else {
      action := BestUpTo(p, v, state, n - 1);
      if Admissible(state, n - 1) && ActionValue(p, v, state, n - 1) > ActionValue(p, v, state, action) {
        action := n - 1;
      }
    }
  }

  lemma SomeBest(p: Params, v: Values, state: nat)
    requires Shaped(p) && state < NUM_STATES
    ensures exists a :: IsBestAction(p, v, state, a)
  {
    hide ActionValue, Admissible;
    var a := BestUpTo(p, v, state, NUM_ACTIONS);
    assert IsBestAction(p, v, state, a);
  }

  ghost function BestOf(p: Params, v: Values, state: nat): (a: nat)
    requires Shaped(p) && state < NUM_STATES
    ensures IsBestAction(p, v, state, a)
  {
    SomeBest(p, v, state);
    var a :| IsBestAction(p, v, state, a);
    a
  }

  // Every state's best action value.
  ghost function Bellman(p: Params, v: Values): (w: Values)
    requires Shaped(p)
    ensures |w| == NUM_STATES
  {
    seq(NUM_STATES, s requires 0 <= s < NUM_STATES => ActionValue(p, v, s, BestOf(p, v, s)))
  }

  lemma BellmanCloser(p: Params, v: Values, w: Values, d: real)
    requires Shaped(p) && ParamsOk(p) && Exact(p) && Close(v, w, d)
    ensures Close(Bellman(p, v), Bellman(p, w), Times(p.discount, d))
  {
    hide ActionValue, Admissible, Times, ParamsOk, Exact, Close, BestOf;
    forall s: nat | s < NUM_STATES
      ensures Abs(At(Bellman(p, v), s) - At(Bellman(p, w), s)) <= Times(p.discount, d)
    {
      Contraction(p, v, w, d, s, BestOf(p, v, s));
      Contraction(p, v, w, d, s, BestOf(p, w, s));
    }
    CloseIntro(Bellman(p, v), Bellman(p, w), Times(p.discount, d));
  }

  lemma CloseIntro(v: Values, w: Values, d: real)
    requires forall s: nat | s < NUM_STATES :: Abs(At(v, s) - At(w, s)) <= d
    ensures Close(v, w, d)
  {
  }

  ghost function Iterate(p: Params, n: nat): (v: Values)
    requires Shaped(p)
    ensures |v| == NUM_STATES
  {
    if n == 0 then seq(NUM_STATES, _ => 0.0) else Bellman(p, Iterate(p, n - 1))
  }

  // Each backup moves the values by the discount less than the one before.
  lemma {:induction false} IterateMoves(p: Params, n: nat)
    requires Shaped(p) && ParamsOk(p) && Exact(p)
    ensures p.discount < 1.0 && ValueCap(p) >= 0.0 && Within(Iterate(p, n), ValueCap(p))
    ensures Close(Iterate(p, n + 1), Iterate(p, n), Times(Pow(p.discount, n), ValueCap(p)))
  {
    hide ActionValue, Admissible, Times, ParamsOk, Exact, ValueCap, Bellman;
    DiscountOk(p);
    CapNotNegative(p);
    if n == 0 {
      BellmanWithin(p, Iterate(p, 0));
      assert Iterate(p, 1) == Bellman(p, Iterate(p, 0));
      TimesBasics(ValueCap(p), 1.0);
      FromNothing(Iterate(p, 1), Iterate(p, 0), ValueCap(p));
    } else {
      IterateMoves(p, n - 1);
      BellmanWithin(p, Iterate(p, n - 1));
      BellmanCloser(p, Iterate(p, n), Iterate(p, n - 1), Times(Pow(p.discount, n - 1), ValueCap(p)));
      Regroup(p.discount, Pow(p.discount, n - 1), ValueCap(p));
    }
  }

  lemma FromNothing(v: Values, nothing: Values, cap: real)
    requires Within(v, cap) && forall i | 0 <= i < NUM_STATES :: At(nothing, i) == 0.0
    ensures Close(v, nothing, cap)
  {
  }

  lemma BellmanWithin(p: Params, v: Values)
    requires Shaped(p) && ParamsOk(p) && Exact(p) && p.discount < 1.0 && Within(v, ValueCap(p))
    ensures Within(Bellman(p, v), ValueCap(p))
  {
    hide ActionValue, Admissible, ParamsOk, Exact, ValueCap, BestOf;
    forall s: nat | s < NUM_STATES ensures Abs(At(Bellman(p, v), s)) <= ValueCap(p) {
      BackupWithin(p, v, s, BestOf(p, v, s));
    }
    WithinIntro(Bellman(p, v), ValueCap(p));
  }

  // However small eta, some values are a fixed point up to eta.
  lemma AlmostFixedExists(p: Params, eta: real) returns (w: Values)
    requires Shaped(p) && ParamsOk(p) && Exact(p) && eta > 0.0
    ensures p.discount < 1.0 && AlmostFixed(p, w, eta) && Within(w, ValueCap(p))
  {
    hide ActionValue, Admissible, Times, ParamsOk, Exact, ValueCap, Within;
    DiscountOk(p);
    CapNotNegative(p);
    var n := Decays(p.discount, ValueCap(p), eta);
    IterateMoves(p, n);
    w := Iterate(p, n);
    forall s | 0 <= s < NUM_STATES ensures AlmostFixedAt(p, w, s, eta) {
      CloseAt(Bellman(p, w), w, Times(Pow(p.discount, n), ValueCap(p)), s);
      var best := BestOf(p, w, s);
      assert At(w, s) <= ActionValue(p, w, s, best) + eta;
    }
  }
}
