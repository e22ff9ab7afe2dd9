// Expanding an action into its successors.
module Mdp {
  import opened PolicyState
  import opened MdpSpec

  // ---- expand ----

  lemma SpreadSnoc(p: Params, imb: nat, bs: seq<Branch>, br: Branch)
    requires Shaped(p) && imb < IMB_BUCKETS && OnGrid(bs) && br.bid < SIDE_STATES && br.ask < SIDE_STATES
    ensures OnGrid(bs + [br]) && SpreadAll(p, imb, bs + [br]) == SpreadAll(p, imb, bs) + Spread(p, imb, br, IMB_BUCKETS)
  {
    assert (bs + [br])[..|bs|] == bs;
  }

  // Append one outcome, for every imbalance that can follow it. `done` are the
  // outcomes already appended to `out0`.
  method Emit(p: Params, imb: nat, br: Branch, out: seq<Transition>, ghost out0: seq<Transition>,
              ghost done: seq<Branch>)
    returns (r: seq<Transition>, ghost done': seq<Branch>)
    requires Shaped(p) && imb < IMB_BUCKETS && br.bid < SIDE_STATES && br.ask < SIDE_STATES
    requires OnGrid(done) && out == out0 + SpreadAll(p, imb, done)
    ensures r == out + Spread(p, imb, br, IMB_BUCKETS)
    ensures done' == done + [br] && OnGrid(done') && r == out0 + SpreadAll(p, imb, done')
  {
    hide SpreadAll, Encode, Reward, Times;
    r, done' := out, done + [br];
    SpreadSnoc(p, imb, done, br);
    if br.prob <= 0.0 {
      assert Spread(p, imb, br, IMB_BUCKETS) == [];
      return;
    }
    var q := ClampInv(br.inventory);
    var reward := Reward(p, q, br.edge, br.drift);
    for j := 0 to IMB_BUCKETS
      invariant r == out + Spread(p, imb, br, j)
    {
      var pj := p.imb[imb][j];
      if pj > 0.0 {
        r := r + [Transition(Encode(State(q, br.bid, br.ask, j)), Times(br.prob, pj), reward)];
      }
    }
  }

  method ExpandUp(p: Params, imb: nat, q: int, b0: nat, a0: nat, pu: real, out: seq<Transition>)
    returns (r: seq<Transition>)
    requires Shaped(p) && imb < IMB_BUCKETS && b0 < SIDE_STATES && a0 < SIDE_STATES
    ensures r == out + SpreadAll(p, imb, UpPart(p, q, b0, a0, pu))
  {
    hide SpreadAll, Spread, Times, TakenByMove;
    r := out;
    ghost var done: seq<Branch> := [];
    SpreadNone(p, imb);
    if pu > 0.0 {
      if TakenByMove(a0) {
        r, done := Emit(p, imb,
          Branch(Up, false, true, Times(pu, p.pMoveAdverse), q - 1, StepAway(b0), NO_QUOTE, p.edge[0], p.moveTicks),
          r, out, done);
        r, done := Emit(p, imb,
          Branch(Up, false, true, Times(pu, 1.0 - p.pMoveAdverse), q - 1, StepAway(b0), NO_QUOTE, p.edge[0], 0.0),
          r, out, done);
      } else {
        r, done := Emit(p, imb,
          Branch(Up, false, false, pu, q, StepAway(b0), StepToward(a0), 0.0, p.moveTicks),
          r, out, done);
      }
    }
    assert done == UpPart(p, q, b0, a0, pu);
  }

  method ExpandDown(p: Params, imb: nat, q: int, b0: nat, a0: nat, pd: real, out: seq<Transition>)
    returns (r: seq<Transition>)
    requires Shaped(p) && imb < IMB_BUCKETS && b0 < SIDE_STATES && a0 < SIDE_STATES
    ensures r == out + SpreadAll(p, imb, DownPart(p, q, b0, a0, pd))
  {
    hide SpreadAll, Spread, Times, TakenByMove;
    r := out;
    ghost var done: seq<Branch> := [];
    SpreadNone(p, imb);
    if pd > 0.0 {
      if TakenByMove(b0) {
        r, done := Emit(p, imb,
          Branch(Down, true, false, Times(pd, p.pMoveAdverse), q + 1, NO_QUOTE, StepAway(a0), p.edge[0], -p.moveTicks),
          r, out, done);
        r, done := Emit(p, imb,
          Branch(Down, true, false, Times(pd, 1.0 - p.pMoveAdverse), q + 1, NO_QUOTE, StepAway(a0), p.edge[0], 0.0),
          r, out, done);
      } else {
        r, done := Emit(p, imb,
          Branch(Down, false, false, pd, q, StepToward(b0), StepAway(a0), 0.0, -p.moveTicks),
          r, out, done);
      }
    }
    assert done == DownPart(p, q, b0, a0, pd);
  }

  method ExpandFilled(p: Params, imb: nat, q: int, b0: nat, a0: nat, pf: real, out: seq<Transition>)
    returns (r: seq<Transition>)
    requires Shaped(p) && imb < IMB_BUCKETS && b0 < SIDE_STATES && a0 < SIDE_STATES
    ensures r == out + SpreadAll(p, imb, FilledBranches(p, q, b0, a0, pf))
  {
    hide SpreadAll, Spread, Times, FillProb, AdvanceProb, EdgeOf, Advance;
    var pb, pa, eb, ea := FillProb(p, b0), FillProb(p, a0), EdgeOf(p, b0), EdgeOf(p, a0);
    var qb, qa := AdvanceProb(p, b0), AdvanceProb(p, a0);
    r := out;
    ghost var done: seq<Branch> := [];
    SpreadNone(p, imb);
    r, done := Emit(p, imb, Branch(Held, true, true, Times(Times(pf, pb), pa), q, NO_QUOTE, NO_QUOTE, eb + ea, 0.0),
      r, out, done);
    r, done := Emit(p, imb,
      Branch(Held, true, false, Times(Times(Times(pf, pb), 1.0 - pa), 1.0 - qa), q + 1, NO_QUOTE, a0, eb, 0.0),
      r, out, done);
    r, done := Emit(p, imb,
      Branch(Held, true, false, Times(Times(Times(pf, pb), 1.0 - pa), qa), q + 1, NO_QUOTE, Advance(a0), eb, 0.0),
      r, out, done);
    r, done := Emit(p, imb,
      Branch(Held, false, true, Times(Times(Times(pf, 1.0 - pb), pa), 1.0 - qb), q - 1, b0, NO_QUOTE, ea, 0.0),
      r, out, done);
    r, done := Emit(p, imb,
      Branch(Held, false, true, Times(Times(Times(pf, 1.0 - pb), pa), qb), q - 1, Advance(b0), NO_QUOTE, ea, 0.0),
      r, out, done);
    assert done == FilledBranches(p, q, b0, a0, pf);
  }

  method ExpandResting(p: Params, imb: nat, q: int, b0: nat, a0: nat, pf: real, out: seq<Transition>)
    returns (r: seq<Transition>)
    requires Shaped(p) && imb < IMB_BUCKETS && b0 < SIDE_STATES && a0 < SIDE_STATES
    ensures r == out + SpreadAll(p, imb, RestingBranches(p, q, b0, a0, pf))
  {
    hide SpreadAll, Spread, Times, FillProb, AdvanceProb, EdgeOf, Advance;
    var qb, qa := AdvanceProb(p, b0), AdvanceProb(p, a0);
    var rest := Times(Times(pf, 1.0 - FillProb(p, b0)), 1.0 - FillProb(p, a0));
    r := out;
    ghost var done: seq<Branch> := [];
    SpreadNone(p, imb);
    r, done := Emit(p, imb, Branch(Held, false, false, Times(Times(rest, 1.0 - qb), 1.0 - qa), q, b0, a0, 0.0, 0.0),
      r, out, done);
    r, done := Emit(p, imb,
      Branch(Held, false, false, Times(Times(rest, qb), 1.0 - qa), q, Advance(b0), a0, 0.0, 0.0),
      r, out, done);
    r, done := Emit(p, imb,
      Branch(Held, false, false, Times(Times(rest, 1.0 - qb), qa), q, b0, Advance(a0), 0.0, 0.0),
      r, out, done);
    r, done := Emit(p, imb,
      Branch(Held, false, false, Times(Times(rest, qb), qa), q, Advance(b0), Advance(a0), 0.0, 0.0),
      r, out, done);
    assert done == RestingBranches(p, q, b0, a0, pf);
  }

  lemma SpreadNone(p: Params, imb: nat)
    requires Shaped(p) && imb < IMB_BUCKETS
    ensures SpreadAll(p, imb, []) == []
  {
  }

  lemma {:induction false} SpreadConcat(p: Params, imb: nat, x: seq<Branch>, y: seq<Branch>)
    requires Shaped(p) && imb < IMB_BUCKETS && OnGrid(x) && OnGrid(y)
    ensures OnGrid(x + y) && SpreadAll(p, imb, x + y) == SpreadAll(p, imb, x) + SpreadAll(p, imb, y)
    decreases |y|
  {
    hide Spread;
    if y == [] {
      assert x + y == x;
    } else {
      assert (x + y)[..|x + y| - 1] == x + y[..|y| - 1];
      SpreadConcat(p, imb, x, y[..|y| - 1]);
    }
  }

  // Append the successors of an action to the buffer.
  method Expand(p: Params, state: nat, action: nat, out: seq<Transition>) returns (r: seq<Transition>)
    requires Shaped(p) && state < NUM_STATES && action < NUM_ACTIONS
    ensures r == out + Successors(p, state, action)
  {
    hide SpreadAll, UpPart, DownPart, FilledBranches, RestingBranches, ApplyAction, Decode, DecodeAction;
    EncodeDecode(state);
    ActionRoundTrip(DecodeAction(action), action);
    var s, a := Decode(state), DecodeAction(action);
    var b0, a0 := ApplyAction(s.bid, a.bid), ApplyAction(s.ask, a.ask);
    var pu, pd := p.pUp[s.imb], p.pDown[s.imb];
    var pf := 1.0 - pu - pd;
    var r1 := ExpandUp(p, s.imb, s.inventory, b0, a0, pu, out);
    var r2 := ExpandDown(p, s.imb, s.inventory, b0, a0, pd, r1);
    r := r2;
    ghost var u, d := UpPart(p, s.inventory, b0, a0, pu), DownPart(p, s.inventory, b0, a0, pd);
    ghost var f, t := FilledBranches(p, s.inventory, b0, a0, pf), RestingBranches(p, s.inventory, b0, a0, pf);
    SpreadConcat(p, s.imb, u, d);
    SpreadNone(p, s.imb);
    if pf > 0.0 {
      var r3 := ExpandFilled(p, s.imb, s.inventory, b0, a0, pf, r);
      r := ExpandResting(p, s.imb, s.inventory, b0, a0, pf, r3);
      SpreadConcat(p, s.imb, f, t);
    }
    SpreadConcat(p, s.imb, u + d, HeldPart(p, s.inventory, b0, a0, pf));
    assert r == out + (SpreadAll(p, s.imb, u) + SpreadAll(p, s.imb, d)
                       + SpreadAll(p, s.imb, HeldPart(p, s.inventory, b0, a0, pf)));
  }
}
