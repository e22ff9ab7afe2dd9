// The odds of everything an epoch can bring, by what happens rather than by branch:
// each move, both fills at once, a move that marks the price after a fill, and each
// queue, or both, moving up a bucket.
module MdpOdds {
  import opened PolicyState
  import opened MdpSpec

  datatype Matter =
    | MovesUp
    | MovesDown
    | Holds
    | BothFill
    | SoldIntoRise
    | BoughtIntoFall
    | BidAdvances
    | AskAdvances
    | BothAdvance

  predicate Advanced(before: nat, after: nat) {
    after != before
  }

  predicate Matters(what: Matter, br: Branch, b0: nat, a0: nat) {
    match what
    case MovesUp => br.move.Up?
    case MovesDown => br.move.Down?
    case Holds => br.move.Held?
    case BothFill => br.bidFilled && br.askFilled
    case SoldIntoRise => br.askFilled && br.drift > 0.0
    case BoughtIntoFall => br.bidFilled && br.drift < 0.0
    case BidAdvances => br.move.Held? && !br.bidFilled && Advanced(b0, br.bid)
    case AskAdvances => br.move.Held? && !br.askFilled && Advanced(a0, br.ask)
    case BothAdvance =>
      br.move.Held? && !br.bidFilled && !br.askFilled && Advanced(b0, br.bid) && Advanced(a0, br.ask)
  }

  function Weight(what: Matter, br: Branch, b0: nat, a0: nat): real {
    if Matters(what, br, b0, a0) then br.prob else 0.0
  }

  function Odds(what: Matter, bs: seq<Branch>, b0: nat, a0: nat): real {
    if bs == [] then 0.0 else Odds(what, bs[..|bs| - 1], b0, a0) + Weight(what, bs[|bs| - 1], b0, a0)
  }

  // What the odds should be, from the process's own probabilities.
  function Chance(what: Matter, p: Params, b0: nat, a0: nat, pu: real, pd: real): real
    requires Shaped(p)
  {
    var pf, pb, pa := 1.0 - pu - pd, FillProb(p, b0), FillProb(p, a0);
    match what
    case MovesUp => pu
    case MovesDown => pd
    case Holds => pf
    case BothFill => Times(Times(pf, pb), pa)
    case SoldIntoRise => if TakenByMove(a0) then Times(pu, p.pMoveAdverse) else 0.0
    case BoughtIntoFall => if TakenByMove(b0) then Times(pd, p.pMoveAdverse) else 0.0
    case BidAdvances => Times(Times(pf, 1.0 - pb), AdvanceProb(p, b0))
    case AskAdvances => Times(Times(pf, 1.0 - pa), AdvanceProb(p, a0))
    case BothAdvance => Times(Times(Times(Times(pf, 1.0 - pb), 1.0 - pa), AdvanceProb(p, b0)), AdvanceProb(p, a0))
  }

  lemma {:induction false} OddsConcat(what: Matter, x: seq<Branch>, y: seq<Branch>, b0: nat, a0: nat)
    ensures Odds(what, x + y, b0, a0) == Odds(what, x, b0, a0) + Odds(what, y, b0, a0)
    decreases |y|
  {
    if y == [] {
      assert x + y == x;
    } else {
      assert (x + y)[..|x + y| - 1] == x + y[..|y| - 1];
      OddsConcat(what, x, y[..|y| - 1], b0, a0);
    }
  }

  lemma OddsOne(what: Matter, x: Branch, b0: nat, a0: nat)
    ensures Odds(what, [x], b0, a0) == Weight(what, x, b0, a0)
  {
    assert [x][..0] == [];
  }

  lemma OddsTwo(what: Matter, x: Branch, y: Branch, b0: nat, a0: nat)
    ensures Odds(what, [x, y], b0, a0) == Weight(what, x, b0, a0) + Weight(what, y, b0, a0)
  {
    assert [x, y][..1] == [x];
    OddsOne(what, x, b0, a0);
  }

  // Only an order with others ahead of it can advance, and only then its place changes.
  lemma AdvanceIs(p: Params, side: nat)
    requires Shaped(p) && side < SIDE_STATES
    ensures Advance(side) == side ==> AdvanceProb(p, side) == 0.0
    ensures Advance(side) != side ==> Quoting(side) && QueueOf(side) > 0
  {
  }

  lemma UpOdds(what: Matter, p: Params, q: int, b0: nat, a0: nat, pu: real)
    requires Shaped(p) && b0 < SIDE_STATES && a0 < SIDE_STATES && pu >= 0.0 && p.moveTicks > 0.0
    ensures Odds(what, UpPart(p, q, b0, a0, pu), b0, a0)
         == if what.MovesUp? then pu
            else if what.SoldIntoRise? && TakenByMove(a0) then Times(pu, p.pMoveAdverse) else 0.0
  {
    hide TakenByMove, Times, StepAway, StepToward, Advanced;
    var u := UpBranches(p, q, b0, a0, pu);
    Splits(pu, p.pMoveAdverse);
    TimesZero(p.pMoveAdverse);
    if TakenByMove(a0) {
      OddsTwo(what, u[0], u[1], b0, a0);
    } else {
      OddsOne(what, u[0], b0, a0);
    }
  }

  lemma DownOdds(what: Matter, p: Params, q: int, b0: nat, a0: nat, pd: real)
    requires Shaped(p) && b0 < SIDE_STATES && a0 < SIDE_STATES && pd >= 0.0 && p.moveTicks > 0.0
    ensures Odds(what, DownPart(p, q, b0, a0, pd), b0, a0)
         == if what.MovesDown? then pd
            else if what.BoughtIntoFall? && TakenByMove(b0) then Times(pd, p.pMoveAdverse) else 0.0
  {
    hide TakenByMove, Times, StepAway, StepToward, Advanced;
    var d := DownBranches(p, q, b0, a0, pd);
    Splits(pd, p.pMoveAdverse);
    TimesZero(p.pMoveAdverse);
    if TakenByMove(b0) {
      OddsTwo(what, d[0], d[1], b0, a0);
    } else {
      OddsOne(what, d[0], b0, a0);
    }
  }

  lemma FilledOdds(what: Matter, p: Params, q: int, b0: nat, a0: nat, pf: real)
    requires Shaped(p) && b0 < SIDE_STATES && a0 < SIDE_STATES
    ensures var pb, pa := FillProb(p, b0), FillProb(p, a0);
            Odds(what, FilledBranches(p, q, b0, a0, pf), b0, a0)
            == match what
               case Holds => Times(pf, pb) + Times(Times(pf, 1.0 - pb), pa)
               case BothFill => Times(Times(pf, pb), pa)
               case BidAdvances => Times(Times(Times(pf, 1.0 - pb), pa), AdvanceProb(p, b0))
               case AskAdvances => Times(Times(Times(pf, pb), 1.0 - pa), AdvanceProb(p, a0))
               case _ => 0.0
  {
    hide Advance, FillProb, EdgeOf, AdvanceProb, Times;
    var f := FilledBranches(p, q, b0, a0, pf);
    var pb, pa, qb, qa := FillProb(p, b0), FillProb(p, a0), AdvanceProb(p, b0), AdvanceProb(p, a0);
    OddsOne(what, f[0], b0, a0);
    OddsTwo(what, f[1], f[2], b0, a0);
    OddsTwo(what, f[3], f[4], b0, a0);
    OddsConcat(what, [f[0]], [f[1], f[2]], b0, a0);
    OddsConcat(what, [f[0]] + [f[1], f[2]], [f[3], f[4]], b0, a0);
    assert f == [f[0]] + [f[1], f[2]] + [f[3], f[4]];
    AdvanceIs(p, b0);
    AdvanceIs(p, a0);
    TimesZero(Times(Times(pf, 1.0 - pb), pa));
    TimesZero(Times(Times(pf, pb), 1.0 - pa));
    Splits(Times(Times(pf, pb), 1.0 - pa), qa);
    Splits(Times(Times(pf, 1.0 - pb), pa), qb);
    Splits(Times(pf, pb), pa);
  }

  lemma RestingOdds(what: Matter, p: Params, q: int, b0: nat, a0: nat, pf: real)
    requires Shaped(p) && b0 < SIDE_STATES && a0 < SIDE_STATES
    ensures var rest := Times(Times(pf, 1.0 - FillProb(p, b0)), 1.0 - FillProb(p, a0));
            Odds(what, RestingBranches(p, q, b0, a0, pf), b0, a0)
            == match what
               case Holds => rest
               case BidAdvances => Times(rest, AdvanceProb(p, b0))
               case AskAdvances => Times(rest, AdvanceProb(p, a0))
               case BothAdvance => Times(Times(rest, AdvanceProb(p, b0)), AdvanceProb(p, a0))
               case _ => 0.0
  {
    hide Advance, FillProb, EdgeOf, AdvanceProb, Times;
    var r := RestingBranches(p, q, b0, a0, pf);
    var qb, qa := AdvanceProb(p, b0), AdvanceProb(p, a0);
    var rest := Times(Times(pf, 1.0 - FillProb(p, b0)), 1.0 - FillProb(p, a0));
    OddsTwo(what, r[0], r[1], b0, a0);
    OddsTwo(what, r[2], r[3], b0, a0);
    OddsConcat(what, [r[0], r[1]], [r[2], r[3]], b0, a0);
    assert r == [r[0], r[1]] + [r[2], r[3]];
    AdvanceIs(p, b0);
    AdvanceIs(p, a0);
    TimesZero(rest);
    TimesZero(qa);
    TimesZero(Times(rest, qb));
    Commute(rest, 1.0 - qb, qa);
    Commute(rest, qb, qa);
    Splits(Times(rest, qa), qb);
    Splits(Times(rest, qb), qa);
    Splits(Times(rest, 1.0 - qb), qa);
    Splits(rest, qb);
  }

  lemma HeldOdds(what: Matter, p: Params, q: int, b0: nat, a0: nat, pf: real)
    requires Shaped(p) && b0 < SIDE_STATES && a0 < SIDE_STATES && pf >= 0.0
    ensures var pb, pa := FillProb(p, b0), FillProb(p, a0);
            Odds(what, HeldPart(p, q, b0, a0, pf), b0, a0)
            == match what
               case Holds => pf
               case BothFill => Times(Times(pf, pb), pa)
               case BidAdvances => Times(Times(pf, 1.0 - pb), AdvanceProb(p, b0))
               case AskAdvances => Times(Times(pf, 1.0 - pa), AdvanceProb(p, a0))
               case BothAdvance =>
                 Times(Times(Times(Times(pf, 1.0 - pb), 1.0 - pa), AdvanceProb(p, b0)), AdvanceProb(p, a0))
               case _ => 0.0
  {
    hide FillProb, FilledBranches, RestingBranches, AdvanceProb, Times;
    var pb, pa, qb, qa := FillProb(p, b0), FillProb(p, a0), AdvanceProb(p, b0), AdvanceProb(p, a0);
    FilledOdds(what, p, q, b0, a0, pf);
    RestingOdds(what, p, q, b0, a0, pf);
    OddsConcat(what, FilledBranches(p, q, b0, a0, pf), RestingBranches(p, q, b0, a0, pf), b0, a0);
    Splits(pf, pb);
    Splits(Times(pf, 1.0 - pb), pa);
    ShareOut(Times(pf, 1.0 - pb), pa, qb);
    Commute(pf, pb, 1.0 - pa);
    Commute(pf, 1.0 - pb, 1.0 - pa);
    ShareOut(Times(pf, 1.0 - pa), pb, qa);
    NoHold(pb, pa, qb, qa);
  }

  lemma ShareOut(x: real, y: real, z: real)
    ensures Times(Times(x, y), z) + Times(Times(x, 1.0 - y), z) == Times(x, z)
  {
  }

  lemma NoHold(pb: real, pa: real, qb: real, qa: real)
    ensures Times(Times(0.0, pb), pa) == 0.0 && Times(Times(0.0, 1.0 - pb), qb) == 0.0
    ensures Times(Times(0.0, 1.0 - pa), qa) == 0.0
    ensures Times(Times(Times(Times(0.0, 1.0 - pb), 1.0 - pa), qb), qa) == 0.0
  {
  }

  // The odds of each of these, over all the outcomes of any action, are exactly what
  // the process says: the two sides fill, and advance, independently of each other.
  lemma OddsAre(what: Matter, p: Params, s: State, a: Action)
    requires Shaped(p) && ParamsOk(p) && ValidState(s) && ValidAction(a)
    ensures var b0, a0 := ApplyAction(s.bid, a.bid), ApplyAction(s.ask, a.ask);
            Odds(what, Branches(p, s, a), b0, a0) == Chance(what, p, b0, a0, p.pUp[s.imb], p.pDown[s.imb])
  {
    hide ApplyAction, ParamsOk, UpPart, DownPart, HeldPart, FillProb, AdvanceProb, TakenByMove, Times, Odds;
    var b0, a0, pu, pd := ApplyAction(s.bid, a.bid), ApplyAction(s.ask, a.ask), p.pUp[s.imb], p.pDown[s.imb];
    MoveProbs(p, s.imb);
    MoveIsPositive(p);
    var u, d := UpPart(p, s.inventory, b0, a0, pu), DownPart(p, s.inventory, b0, a0, pd);
    UpOdds(what, p, s.inventory, b0, a0, pu);
    DownOdds(what, p, s.inventory, b0, a0, pd);
    HeldOdds(what, p, s.inventory, b0, a0, 1.0 - pu - pd);
    OddsConcat(what, u, d, b0, a0);
    OddsConcat(what, u + d, HeldPart(p, s.inventory, b0, a0, 1.0 - pu - pd), b0, a0);
  }

  lemma MoveIsPositive(p: Params)
    requires Shaped(p) && ParamsOk(p)
    ensures p.moveTicks > 0.0
  {
  }

  // ---- the tables, and the reward ----

  // A quote at a level and a place in its queue fills, advances and earns by its own
  // entries; no quote does none of it.
  lemma TablesAreRead(p: Params, level: nat, queue: nat)
    requires Shaped(p) && level < QUOTE_LEVELS && queue < QUEUE_BUCKETS
    ensures var side := MakeSide(level, queue);
            && FillProb(p, side) == p.pFill[level][queue] && EdgeOf(p, side) == p.edge[level]
            && AdvanceProb(p, side) == (if queue > 0 then p.pAdvance[queue] else 0.0)
            && (TakenByMove(side) <==> level == 0)
    ensures FillProb(p, NO_QUOTE) == EdgeOf(p, NO_QUOTE) == AdvanceProb(p, NO_QUOTE) == 0.0 && !TakenByMove(NO_QUOTE)
  {
    SideRoundTrip(level, queue, 0);
  }

  // The edge is earned in full; a long inventory gains what the price gains and a
  // short one loses it; and holding either costs, by its square.
  lemma RewardIs(p: Params, q: int, edge: real, drift: real)
    requires p.inventoryPenalty >= 0.0
    ensures Reward(p, q, edge, drift) == Reward(p, q, 0.0, drift) + edge
    ensures Reward(p, q, edge, drift) - Reward(p, q, edge, 0.0) == (q as real) * drift
    ensures q > 0 && drift > 0.0 ==> Reward(p, q, edge, drift) > Reward(p, q, edge, 0.0)
    ensures q < 0 && drift > 0.0 ==> Reward(p, q, edge, drift) < Reward(p, q, edge, 0.0)
    ensures Reward(p, q, 0.0, 0.0) == -(p.inventoryPenalty * ((q * q) as real)) <= 0.0
  {
    hide Reward;
    RewardParts(p, q, edge, drift);
    RewardParts(p, q, 0.0, drift);
    RewardParts(p, q, edge, 0.0);
    RewardParts(p, q, 0.0, 0.0);
    Signs(q, drift, p.inventoryPenalty);
  }

  lemma RewardParts(p: Params, q: int, edge: real, drift: real)
    ensures Reward(p, q, edge, drift) == edge + (q as real) * drift - p.inventoryPenalty * ((q * q) as real)
  {
    assert (q as real) * (q as real) == (q * q) as real;
    assert (p.inventoryPenalty * (q as real)) * (q as real) == p.inventoryPenalty * ((q as real) * (q as real));
  }

  lemma Signs(q: int, drift: real, c: real)
    requires c >= 0.0
    ensures q > 0 && drift > 0.0 ==> (q as real) * drift > 0.0
    ensures q < 0 && drift > 0.0 ==> (q as real) * drift < 0.0
    ensures (q as real) * 0.0 == 0.0 && c * ((q * q) as real) >= 0.0
  {
    assert q * q >= 0;
  }

  // ---- successors ----

  // The successor is this branch's: the branch's inventory and quotes, the reward
  // marked on the inventory it leaves, and its share by the imbalance it goes to.
  predicate ComesOf(p: Params, imb: nat, br: Branch, t: Transition)
    requires Shaped(p) && imb < IMB_BUCKETS
  {
    var s := Decode(t.next);
    && s.inventory == br.inventory && s.bid == br.bid && s.ask == br.ask && s.imb < IMB_BUCKETS
    && t.prob == Times(br.prob, p.imb[imb][s.imb]) && t.reward == Reward(p, s.inventory, br.edge, br.drift)
  }

  lemma {:induction false} SpreadIs(p: Params, imb: nat, br: Branch, n: nat, k: nat) returns (j: nat)
    requires Shaped(p) && imb < IMB_BUCKETS && n <= IMB_BUCKETS && br.bid < SIDE_STATES && br.ask < SIDE_STATES
    requires k < |Spread(p, imb, br, n)|
    ensures j < n && br.prob > 0.0 && Spread(p, imb, br, n)[k] == TransitionTo(p, imb, br, j)
  {
    hide TransitionTo;
    if k < |Spread(p, imb, br, n - 1)| {
      j := SpreadIs(p, imb, br, n - 1, k);
    } else {
      j := n - 1;
    }
  }

  lemma {:induction false} SpreadAllIs(p: Params, imb: nat, bs: seq<Branch>, k: nat) returns (i: nat, j: nat)
    requires Shaped(p) && imb < IMB_BUCKETS && OnGrid(bs) && k < |SpreadAll(p, imb, bs)|
    ensures i < |bs| && j < IMB_BUCKETS && bs[i].prob > 0.0
            && SpreadAll(p, imb, bs)[k] == TransitionTo(p, imb, bs[i], j)
  {
    hide TransitionTo, Spread;
    var n := |bs| - 1;
    var m := |SpreadAll(p, imb, bs[..n])|;
    if k < m {
      i, j := SpreadAllIs(p, imb, bs[..n], k);
    } else {
      j := SpreadIs(p, imb, bs[n], IMB_BUCKETS, k - m);
      i := n;
    }
  }

  // Every successor of an admissible action is some sensible outcome's.
  lemma SuccessorComes(p: Params, state: nat, action: nat, k: nat) returns (i: nat)
    requires Shaped(p) && ParamsOk(p) && state < NUM_STATES && action < NUM_ACTIONS && Admissible(state, action)
    requires k < |Successors(p, state, action)|
    ensures Decode(state).imb < IMB_BUCKETS && ValidState(Decode(state)) && ValidAction(DecodeAction(action))
    ensures var s, a := Decode(state), DecodeAction(action);
            && i < |Branches(p, s, a)|
            && Sensible(p, s.inventory, ApplyAction(s.bid, a.bid), ApplyAction(s.ask, a.ask), Branches(p, s, a)[i])
            && ComesOf(p, s.imb, Branches(p, s, a)[i], Successors(p, state, action)[k])
  {
    hide ParamsOk, Branches, Decode, DecodeAction, SpreadAll, Sensible, Reward, Admissible, Encode, Times, ApplyAction;
    EncodeDecode(state);
    ActionRoundTrip(DecodeAction(action), action);
    var s, a := Decode(state), DecodeAction(action);
    BranchesSensible(p, s, a);
    var j;
    i, j := SpreadAllIs(p, s.imb, Branches(p, s, a), k);
    ClampNeverActs(p, state, action, i);
    var br := Branches(p, s, a)[i];
    ClampInside(br.inventory);
    DecodeEncode(State(ClampInv(br.inventory), br.bid, br.ask, j));
  }

  lemma ClampInside(q: int)
    ensures -MAX_INVENTORY <= ClampInv(q) <= MAX_INVENTORY
  {
  }

  // The probability of going to one imbalance.
  function MassTo(ts: seq<Transition>, j: nat): real {
    if ts == [] then 0.0
    else MassTo(ts[..|ts| - 1], j) + if Decode(ts[|ts| - 1].next).imb == j then ts[|ts| - 1].prob else 0.0
  }

  lemma {:induction false} MassToConcat(x: seq<Transition>, y: seq<Transition>, j: nat)
    ensures MassTo(x + y, j) == MassTo(x, j) + MassTo(y, j)
    decreases |y|
  {
    hide Decode;
    if y == [] {
      assert x + y == x;
    } else {
      assert (x + y)[..|x + y| - 1] == x + y[..|y| - 1];
      MassToConcat(x, y[..|y| - 1], j);
    }
  }

  lemma {:induction false} SpreadMassTo(p: Params, imb: nat, br: Branch, n: nat, j: nat)
    requires Shaped(p) && imb < IMB_BUCKETS && n <= IMB_BUCKETS && br.bid < SIDE_STATES && br.ask < SIDE_STATES
    requires AllProb(p.imb[imb]) && br.prob >= 0.0 && j < IMB_BUCKETS
    ensures MassTo(Spread(p, imb, br, n), j) == if j < n then Times(br.prob, p.imb[imb][j]) else 0.0
  {
    hide Times, Encode, Decode, Reward;
    TimesZero(p.imb[imb][j]);
    TimesZero(br.prob);
    if n > 0 && br.prob > 0.0 {
      SpreadMassTo(p, imb, br, n - 1, j);
      assert Prob(p.imb[imb][n - 1]);
      ClampInside(br.inventory);
      DecodeEncode(State(ClampInv(br.inventory), br.bid, br.ask, n - 1));
      var t := TransitionTo(p, imb, br, n - 1);
      assert [t][..0] == [];
      MassToConcat(Spread(p, imb, br, n - 1), [t], j);
      assert Spread(p, imb, br, n - 1) + [] == Spread(p, imb, br, n - 1);
    }
  }

  lemma {:induction false} SpreadAllMassTo(p: Params, imb: nat, bs: seq<Branch>, j: nat)
    requires Shaped(p) && imb < IMB_BUCKETS && OnGrid(bs) && AllProb(p.imb[imb]) && j < IMB_BUCKETS
    requires forall k | 0 <= k < |bs| :: bs[k].prob >= 0.0
    ensures MassTo(SpreadAll(p, imb, bs), j) == Times(Tallied(bs).mass, p.imb[imb][j])
  {
    hide Times, Spread, Decode;
    TimesZero(p.imb[imb][j]);
    if bs != [] {
      var n := |bs| - 1;
      SpreadAllMassTo(p, imb, bs[..n], j);
      SpreadMassTo(p, imb, bs[n], IMB_BUCKETS, j);
      MassToConcat(SpreadAll(p, imb, bs[..n]), Spread(p, imb, bs[n], IMB_BUCKETS), j);
      TimesSum(p.imb[imb][j], Tallied(bs[..n]).mass, bs[n].prob);
    }
  }

  // Whatever is done, the imbalance goes where its own row says.
  lemma ImbalanceGoes(p: Params, state: nat, action: nat, j: nat)
    requires Shaped(p) && ParamsOk(p) && state < NUM_STATES && action < NUM_ACTIONS && j < IMB_BUCKETS
    ensures Decode(state).imb < IMB_BUCKETS
    ensures MassTo(Successors(p, state, action), j) == p.imb[Decode(state).imb][j]
  {
    hide ParamsOk, Branches, Decode, DecodeAction, ApplyAction, SpreadAll, Sensible, MassTo;
    EncodeDecode(state);
    ActionRoundTrip(DecodeAction(action), action);
    var s, a := Decode(state), DecodeAction(action);
    BranchesTally(p, s, a);
    BranchesSensible(p, s, a);
    RowIsProb(p, s.imb);
    SpreadAllMassTo(p, s.imb, Branches(p, s, a), j);
  }
}
