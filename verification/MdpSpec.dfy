// The market-making decision process: what one action can lead to in one epoch.
// Probabilities and rewards are reals.
module MdpSpec {
  import opened PolicyState

  datatype Params = Params(
    dt: real,
    pUp: seq<real>,
    pDown: seq<real>,
    moveTicks: real,
    pMoveAdverse: real,
    imb: seq<seq<real>>,
    pFill: seq<seq<real>>,
    pAdvance: seq<real>,
    edge: seq<real>,
    inventoryPenalty: real,
    discount: real)

  // The arrays have the sizes the type declares.
  ghost predicate Shaped(p: Params) {
    && |p.pUp| == |p.pDown| == |p.imb| == IMB_BUCKETS && |p.pAdvance| == QUEUE_BUCKETS
    && |p.pFill| == |p.edge| == QUOTE_LEVELS
    && (forall i | 0 <= i < IMB_BUCKETS :: |p.imb[i]| == IMB_BUCKETS)
    && (forall l | 0 <= l < QUOTE_LEVELS :: |p.pFill[l]| == QUEUE_BUCKETS)
  }

  predicate Prob(x: real) {
    0.0 <= x <= 1.0
  }

  predicate AllProb(xs: seq<real>) {
    forall i | 0 <= i < |xs| :: Prob(xs[i])
  }

  function SumTo(xs: seq<real>, n: nat): real
    requires n <= |xs|
  {
    if n == 0 then 0.0 else SumTo(xs, n - 1) + xs[n - 1]
  }

  function RowSum(p: Params, i: nat): real
    requires i < |p.imb|
  {
    SumTo(p.imb[i], |p.imb[i]|)
  }

  function Abs(x: real): real {
    if x < 0.0 then -x else x
  }

  predicate RowOk(p: Params, i: nat)
    requires i < |p.imb| && i < |p.pUp| && i < |p.pDown|
  {
    && Prob(p.pUp[i]) && Prob(p.pDown[i]) && p.pUp[i] + p.pDown[i] <= 1.0
    && AllProb(p.imb[i]) && Abs(RowSum(p, i) - 1.0) <= 0.000001
  }

  predicate ParamsOk(p: Params)
    requires Shaped(p)
  {
    && p.dt > 0.0 && 0.0 < p.discount < 1.0 && p.moveTicks > 0.0 && Prob(p.pMoveAdverse) && p.inventoryPenalty >= 0.0
    && (forall i | 0 <= i < IMB_BUCKETS :: RowOk(p, i))
    && (forall l | 0 <= l < QUOTE_LEVELS :: AllProb(p.pFill[l]))
    && AllProb(p.pAdvance)
  }

  // ---- one side ----

  // Asking for the level already quoted keeps the place in its queue; asking for
  // another joins that one at the back.
  function ApplyAction(side: nat, act: nat): (r: nat)
    requires side < SIDE_STATES && act < SIDE_ACTIONS
    ensures r < SIDE_STATES && (r == NO_QUOTE <==> act == 0)
    ensures act > 0 ==> LevelOf(r) == act - 1
    ensures act > 0 ==> QueueOf(r) == if Quoting(side) && LevelOf(side) == act - 1 then QueueOf(side) else BACK_OF_QUEUE
  {
    if act == 0 then NO_QUOTE
    else if Quoting(side) && LevelOf(side) == act - 1 then side
    else MakeSide(act - 1, BACK_OF_QUEUE)
  }

  // One bucket nearer the front; an order at the front, or none, stays.
  function Advance(side: nat): (r: nat)
    requires side < SIDE_STATES
    ensures r < SIDE_STATES && LevelOf(r) == LevelOf(side)
    ensures QueueOf(r) == if QueueOf(side) > 0 then QueueOf(side) - 1 else QueueOf(side)
  {
    if !Quoting(side) || QueueOf(side) == 0 then side else MakeSide(LevelOf(side), QueueOf(side) - 1)
  }

  // The market left the quote behind by a level; the last level falls off.
  function StepAway(side: nat): (r: nat)
    requires side < SIDE_STATES
    ensures r < SIDE_STATES && (r == NO_QUOTE <==> side == NO_QUOTE || LevelOf(side) == QUOTE_LEVELS - 1)
    ensures r != NO_QUOTE ==> LevelOf(r) == LevelOf(side) + 1 && QueueOf(r) == QueueOf(side)
  {
    if !Quoting(side) || LevelOf(side) + 1 >= QUOTE_LEVELS then NO_QUOTE else MakeSide(LevelOf(side) + 1, QueueOf(side))
  }

  // The price moved in: one level nearer, keeping the place in the queue.
  function StepToward(side: nat): (r: nat)
    requires side < SIDE_STATES
    ensures r < SIDE_STATES && (r == NO_QUOTE <==> side == NO_QUOTE || LevelOf(side) == 0)
    ensures r != NO_QUOTE ==> LevelOf(r) == LevelOf(side) - 1 && QueueOf(r) == QueueOf(side)
  {
    if !Quoting(side) || LevelOf(side) == 0 then NO_QUOTE else MakeSide(LevelOf(side) - 1, QueueOf(side))
  }

  function FillProb(p: Params, side: nat): real
    requires Shaped(p)
  {
    if Quoting(side) then p.pFill[LevelOf(side)][QueueOf(side)] else 0.0
  }

  function EdgeOf(p: Params, side: nat): real
    requires Shaped(p)
  {
    if Quoting(side) then p.edge[LevelOf(side)] else 0.0
  }

  function AdvanceProb(p: Params, side: nat): real
    requires Shaped(p)
  {
    if Quoting(side) && QueueOf(side) > 0 then p.pAdvance[QueueOf(side)] else 0.0
  }

  predicate TakenByMove(side: nat) {
    Quoting(side) && LevelOf(side) == 0
  }

  function ClampInv(q: int): int {
    if q < -MAX_INVENTORY then -MAX_INVENTORY else if q > MAX_INVENTORY then MAX_INVENTORY else q
  }

  // A position limit on the action, not on its outcome.
  predicate Admissible(state: nat, action: nat) {
    var s, a := Decode(state), DecodeAction(action);
    !(s.inventory >= MAX_INVENTORY && a.bid != 0) && !(s.inventory <= -MAX_INVENTORY && a.ask != 0)
  }

  // Pulling both quotes is always allowed.
  lemma PullIsAdmissible(state: nat)
    ensures Admissible(state, 0)
  {
  }

  // ---- what can happen ----

  // A product, by name, so that proofs need no nonlinear arithmetic.
  function Times(x: real, y: real): real {
    x * y
  }

  datatype Move = Up | Down | Held

  // One outcome, before the imbalance moves. `move`, `bidFilled` and `askFilled`
  // say what happened; the rest is what the process makes of it.
  datatype Branch = Branch(
    move: Move,
    bidFilled: bool,
    askFilled: bool,
    prob: real,
    inventory: int,
    bid: nat,
    ask: nat,
    edge: real,
    drift: real)

  ghost predicate OnGrid(bs: seq<Branch>) {
    forall k | 0 <= k < |bs| :: bs[k].bid < SIDE_STATES && bs[k].ask < SIDE_STATES
  }

  function UpBranches(p: Params, q: int, b0: nat, a0: nat, pu: real): (bs: seq<Branch>)
    requires Shaped(p) && b0 < SIDE_STATES && a0 < SIDE_STATES
    ensures OnGrid(bs)
  {
    var adv := p.pMoveAdverse;
    if TakenByMove(a0) then
      [Branch(Up, false, true, Times(pu, adv), q - 1, StepAway(b0), NO_QUOTE, p.edge[0], p.moveTicks),
       Branch(Up, false, true, Times(pu, 1.0 - adv), q - 1, StepAway(b0), NO_QUOTE, p.edge[0], 0.0)]
    else
      [Branch(Up, false, false, pu, q, StepAway(b0), StepToward(a0), 0.0, p.moveTicks)]
  }

  function DownBranches(p: Params, q: int, b0: nat, a0: nat, pd: real): (bs: seq<Branch>)
    requires Shaped(p) && b0 < SIDE_STATES && a0 < SIDE_STATES
    ensures OnGrid(bs)
  {
    var adv := p.pMoveAdverse;
    if TakenByMove(b0) then
      [Branch(Down, true, false, Times(pd, adv), q + 1, NO_QUOTE, StepAway(a0), p.edge[0], -p.moveTicks),
       Branch(Down, true, false, Times(pd, 1.0 - adv), q + 1, NO_QUOTE, StepAway(a0), p.edge[0], 0.0)]
    else
      [Branch(Down, false, false, pd, q, StepToward(b0), StepAway(a0), 0.0, -p.moveTicks)]
  }

  // The four outcomes of two independent sides, each unfilled one split by whether
  // its queue moves up.
  function FilledBranches(p: Params, q: int, b0: nat, a0: nat, pf: real): (bs: seq<Branch>)
    requires Shaped(p) && b0 < SIDE_STATES && a0 < SIDE_STATES
    ensures OnGrid(bs)
  {
    var pb, pa, eb, ea := FillProb(p, b0), FillProb(p, a0), EdgeOf(p, b0), EdgeOf(p, a0);
    var qb, qa := AdvanceProb(p, b0), AdvanceProb(p, a0);
    [Branch(Held, true, true, Times(Times(pf, pb), pa), q, NO_QUOTE, NO_QUOTE, eb + ea, 0.0)]
    + [Branch(Held, true, false, Times(Times(Times(pf, pb), 1.0 - pa), 1.0 - qa), q + 1, NO_QUOTE, a0, eb, 0.0),
       Branch(Held, true, false, Times(Times(Times(pf, pb), 1.0 - pa), qa), q + 1, NO_QUOTE, Advance(a0), eb, 0.0)]
    + [Branch(Held, false, true, Times(Times(Times(pf, 1.0 - pb), pa), 1.0 - qb), q - 1, b0, NO_QUOTE, ea, 0.0),
       Branch(Held, false, true, Times(Times(Times(pf, 1.0 - pb), pa), qb), q - 1, Advance(b0), NO_QUOTE, ea, 0.0)]
  }

  function RestingBranches(p: Params, q: int, b0: nat, a0: nat, pf: real): (bs: seq<Branch>)
    requires Shaped(p) && b0 < SIDE_STATES && a0 < SIDE_STATES
    ensures OnGrid(bs)
  {
    var qb, qa := AdvanceProb(p, b0), AdvanceProb(p, a0);
    var rest := Times(Times(pf, 1.0 - FillProb(p, b0)), 1.0 - FillProb(p, a0));
    [Branch(Held, false, false, Times(Times(rest, 1.0 - qb), 1.0 - qa), q, b0, a0, 0.0, 0.0),
     Branch(Held, false, false, Times(Times(rest, qb), 1.0 - qa), q, Advance(b0), a0, 0.0, 0.0)]
    + [Branch(Held, false, false, Times(Times(rest, 1.0 - qb), qa), q, b0, Advance(a0), 0.0, 0.0),
       Branch(Held, false, false, Times(Times(rest, qb), qa), q, Advance(b0), Advance(a0), 0.0, 0.0)]
  }

  function UpPart(p: Params, q: int, b0: nat, a0: nat, pu: real): (bs: seq<Branch>)
    requires Shaped(p) && b0 < SIDE_STATES && a0 < SIDE_STATES
    ensures OnGrid(bs)
  {
    if pu > 0.0 then UpBranches(p, q, b0, a0, pu) else []
  }

  function DownPart(p: Params, q: int, b0: nat, a0: nat, pd: real): (bs: seq<Branch>)
    requires Shaped(p) && b0 < SIDE_STATES && a0 < SIDE_STATES
    ensures OnGrid(bs)
  {
    if pd > 0.0 then DownBranches(p, q, b0, a0, pd) else []
  }

  function HeldPart(p: Params, q: int, b0: nat, a0: nat, pf: real): (bs: seq<Branch>)
    requires Shaped(p) && b0 < SIDE_STATES && a0 < SIDE_STATES
    ensures OnGrid(bs)
  {
    if pf > 0.0 then FilledBranches(p, q, b0, a0, pf) + RestingBranches(p, q, b0, a0, pf) else []
  }

  function BranchesFrom(p: Params, q: int, b0: nat, a0: nat, pu: real, pd: real): (bs: seq<Branch>)
    requires Shaped(p) && b0 < SIDE_STATES && a0 < SIDE_STATES
    ensures OnGrid(bs)
  {
    UpPart(p, q, b0, a0, pu) + DownPart(p, q, b0, a0, pd) + HeldPart(p, q, b0, a0, 1.0 - pu - pd)
  }

  function Branches(p: Params, s: State, a: Action): (bs: seq<Branch>)
    requires Shaped(p) && ValidState(s) && ValidAction(a)
    ensures OnGrid(bs)
  {
    BranchesFrom(p, s.inventory, ApplyAction(s.bid, a.bid), ApplyAction(s.ask, a.ask), p.pUp[s.imb], p.pDown[s.imb])
  }

  // ---- the branches add up ----

  datatype Tally = Tally(mass: real, bidFilled: real, askFilled: real)

  function Plus(x: Tally, y: Tally): Tally {
    Tally(x.mass + y.mass, x.bidFilled + y.bidFilled, x.askFilled + y.askFilled)
  }

  function TallyOf(br: Branch): Tally {
    Tally(br.prob, if br.bidFilled then br.prob else 0.0, if br.askFilled then br.prob else 0.0)
  }

  function Tallied(bs: seq<Branch>): Tally {
    if bs == [] then Tally(0.0, 0.0, 0.0) else Plus(Tallied(bs[..|bs| - 1]), TallyOf(bs[|bs| - 1]))
  }

  lemma {:induction false} TallyConcat(x: seq<Branch>, y: seq<Branch>)
    ensures Tallied(x + y) == Plus(Tallied(x), Tallied(y))
    decreases |y|
  {
    if y == [] {
      assert x + y == x;
    } else {
      assert (x + y)[..|x + y| - 1] == x + y[..|y| - 1];
      TallyConcat(x, y[..|y| - 1]);
    }
  }

  lemma TallyNone()
    ensures Tallied([]) == Tally(0.0, 0.0, 0.0)
  {
  }

  lemma TallyOne(x: Branch)
    ensures Tallied([x]) == TallyOf(x)
  {
    assert [x][..0] == [];
  }

  lemma TallyTwo(x: Branch, y: Branch)
    ensures Tallied([x, y]) == Plus(TallyOf(x), TallyOf(y))
  {
    assert [x, y][..1] == [x];
    TallyOne(x);
  }

  lemma TimesZero(y: real)
    ensures Times(0.0, y) == 0.0 == Times(y, 0.0)
  {
  }

  // A probability split in two loses nothing.
  lemma Splits(x: real, q: real)
    ensures Times(x, 1.0 - q) + Times(x, q) == x
  {
  }

  lemma Commute(x: real, y: real, z: real)
    ensures Times(Times(x, y), z) == Times(Times(x, z), y)
  {
  }

  lemma UpTally(p: Params, q: int, b0: nat, a0: nat, pu: real)
    requires Shaped(p) && b0 < SIDE_STATES && a0 < SIDE_STATES && 0.0 <= pu
    ensures Tallied(UpPart(p, q, b0, a0, pu)) == Tally(pu, 0.0, if TakenByMove(a0) then pu else 0.0)
  {
    hide TakenByMove, Times, StepAway, StepToward;
    var u := UpBranches(p, q, b0, a0, pu);
    Splits(pu, p.pMoveAdverse);
    if TakenByMove(a0) {
      TallyTwo(u[0], u[1]);
    } else {
      TallyOne(u[0]);
    }
  }

  lemma DownTally(p: Params, q: int, b0: nat, a0: nat, pd: real)
    requires Shaped(p) && b0 < SIDE_STATES && a0 < SIDE_STATES && 0.0 <= pd
    ensures Tallied(DownPart(p, q, b0, a0, pd)) == Tally(pd, if TakenByMove(b0) then pd else 0.0, 0.0)
  {
    hide TakenByMove, Times, StepAway, StepToward;
    var d := DownBranches(p, q, b0, a0, pd);
    Splits(pd, p.pMoveAdverse);
    if TakenByMove(b0) {
      TallyTwo(d[0], d[1]);
    } else {
      TallyOne(d[0]);
    }
  }

  lemma FilledTally(p: Params, q: int, b0: nat, a0: nat, pf: real)
    requires Shaped(p) && b0 < SIDE_STATES && a0 < SIDE_STATES
    ensures var pb, pa := FillProb(p, b0), FillProb(p, a0);
            Tallied(FilledBranches(p, q, b0, a0, pf))
            == Tally(Times(pf, pb) + Times(Times(pf, 1.0 - pb), pa), Times(pf, pb), Times(pf, pa))
  {
    hide Advance, FillProb, EdgeOf, AdvanceProb, Times;
    var f := FilledBranches(p, q, b0, a0, pf);
    var pb, pa, qb, qa := FillProb(p, b0), FillProb(p, a0), AdvanceProb(p, b0), AdvanceProb(p, a0);
    TallyOne(f[0]);
    TallyTwo(f[1], f[2]);
    TallyTwo(f[3], f[4]);
    TallyConcat([f[0]], [f[1], f[2]]);
    TallyConcat([f[0]] + [f[1], f[2]], [f[3], f[4]]);
    assert f == [f[0]] + [f[1], f[2]] + [f[3], f[4]];
    Splits(Times(Times(pf, pb), 1.0 - pa), qa);
    Splits(Times(Times(pf, 1.0 - pb), pa), qb);
    Splits(Times(pf, pb), pa);
    Splits(Times(pf, pa), pb);
    Commute(pf, pb, pa);
    Commute(pf, 1.0 - pb, pa);
  }

  lemma RestingTally(p: Params, q: int, b0: nat, a0: nat, pf: real)
    requires Shaped(p) && b0 < SIDE_STATES && a0 < SIDE_STATES
    ensures Tallied(RestingBranches(p, q, b0, a0, pf))
            == Tally(Times(Times(pf, 1.0 - FillProb(p, b0)), 1.0 - FillProb(p, a0)), 0.0, 0.0)
  {
    hide Advance, FillProb, EdgeOf, AdvanceProb, Times;
    var r := RestingBranches(p, q, b0, a0, pf);
    var qb, qa := AdvanceProb(p, b0), AdvanceProb(p, a0);
    var rest := Times(Times(pf, 1.0 - FillProb(p, b0)), 1.0 - FillProb(p, a0));
    TallyTwo(r[0], r[1]);
    TallyTwo(r[2], r[3]);
    TallyConcat([r[0], r[1]], [r[2], r[3]]);
    assert r == [r[0], r[1]] + [r[2], r[3]];
    Commute(rest, 1.0 - qb, 1.0 - qa);
    Commute(rest, qb, 1.0 - qa);
    Commute(rest, 1.0 - qb, qa);
    Commute(rest, qb, qa);
    Splits(Times(rest, 1.0 - qa), qb);
    Splits(Times(rest, qa), qb);
    Splits(rest, qa);
  }

  lemma HeldTally(p: Params, q: int, b0: nat, a0: nat, pf: real)
    requires Shaped(p) && b0 < SIDE_STATES && a0 < SIDE_STATES && 0.0 <= pf
    ensures Tallied(HeldPart(p, q, b0, a0, pf)) == Tally(pf, Times(pf, FillProb(p, b0)), Times(pf, FillProb(p, a0)))
  {
    hide FillProb, FilledBranches, RestingBranches, Tallied, Times;
    TallyNone();
    FilledTally(p, q, b0, a0, pf);
    RestingTally(p, q, b0, a0, pf);
    TallyConcat(FilledBranches(p, q, b0, a0, pf), RestingBranches(p, q, b0, a0, pf));
    Splits(pf, FillProb(p, b0));
    Splits(Times(pf, 1.0 - FillProb(p, b0)), FillProb(p, a0));
    TimesZero(FillProb(p, b0));
    TimesZero(FillProb(p, a0));
  }

  // What the imbalance row allows: moves up and down, and staying put.
  lemma MoveProbs(p: Params, i: nat)
    requires Shaped(p) && ParamsOk(p) && i < IMB_BUCKETS
    ensures 0.0 <= p.pUp[i] && 0.0 <= p.pDown[i] && p.pUp[i] + p.pDown[i] <= 1.0
  {
    assert RowOk(p, i);
  }

  lemma BranchesFromTally(p: Params, q: int, b0: nat, a0: nat, pu: real, pd: real)
    requires Shaped(p) && b0 < SIDE_STATES && a0 < SIDE_STATES && 0.0 <= pu && 0.0 <= pd && pu + pd <= 1.0
    ensures var pf := 1.0 - pu - pd;
            Tallied(BranchesFrom(p, q, b0, a0, pu, pd)) ==
            Tally(1.0, (if TakenByMove(b0) then pd else 0.0) + Times(pf, FillProb(p, b0)),
                  (if TakenByMove(a0) then pu else 0.0) + Times(pf, FillProb(p, a0)))
  {
    hide FillProb, UpPart, DownPart, HeldPart, TakenByMove, Tallied, Times;
    var u, d := UpPart(p, q, b0, a0, pu), DownPart(p, q, b0, a0, pd);
    var h := HeldPart(p, q, b0, a0, 1.0 - pu - pd);
    UpTally(p, q, b0, a0, pu);
    DownTally(p, q, b0, a0, pd);
    HeldTally(p, q, b0, a0, 1.0 - pu - pd);
    TallyConcat(u, d);
    TallyConcat(u + d, h);
  }

  // The outcomes of any action have total probability one; each side fills with
  // its own probability, whatever the other does: by a move through the touch, or
  // where it stands.
  lemma BranchesTally(p: Params, s: State, a: Action)
    requires Shaped(p) && ParamsOk(p) && ValidState(s) && ValidAction(a)
    ensures var b0, a0, pu, pd := ApplyAction(s.bid, a.bid), ApplyAction(s.ask, a.ask), p.pUp[s.imb], p.pDown[s.imb];
            Tallied(Branches(p, s, a)) ==
            Tally(1.0,
                  (if TakenByMove(b0) then pd else 0.0) + Times(1.0 - pu - pd, FillProb(p, b0)),
                  (if TakenByMove(a0) then pu else 0.0) + Times(1.0 - pu - pd, FillProb(p, a0)))
  {
    hide ApplyAction, ParamsOk, BranchesFrom, FillProb, Tallied, TakenByMove, Times;
    MoveProbs(p, s.imb);
    BranchesFromTally(p, s.inventory, ApplyAction(s.bid, a.bid), ApplyAction(s.ask, a.ask), p.pUp[s.imb],
      p.pDown[s.imb]);
  }

  // ---- what each outcome means ----

  // The epoch the branch describes: fills change inventory one lot each way and
  // earn their own side's edge; a side that filled is flat, and one that did not
  // is where the move left it, no further back in its queue than it was, and is still
  // quoted unless it has left the levels.
  predicate Sensible(p: Params, q: int, b0: nat, a0: nat, br: Branch)
    requires Shaped(p) && b0 < SIDE_STATES && a0 < SIDE_STATES
  {
    && br.bid < SIDE_STATES && br.ask < SIDE_STATES
    && br.inventory == q + (if br.bidFilled then 1 else 0) - (if br.askFilled then 1 else 0)
    && br.edge == (if br.bidFilled then EdgeOf(p, b0) else 0.0) + (if br.askFilled then EdgeOf(p, a0) else 0.0)
    && (br.bidFilled ==> br.bid == NO_QUOTE) && (br.askFilled ==> br.ask == NO_QUOTE)
    && Stands(b0, br.bid, br.bidFilled, br.move, MovedOut(br.move, true))
    && Stands(a0, br.ask, br.askFilled, br.move, MovedOut(br.move, false))
    && (br.prob > 0.0 ==> (br.bidFilled ==> Quoting(b0)) && (br.askFilled ==> Quoting(a0)))
    && (br.move.Up? ==>
          (br.askFilled <==> TakenByMove(a0)) && !br.bidFilled
          && (br.drift == p.moveTicks || (br.askFilled && br.drift == 0.0)))
    && (br.move.Down? ==>
          (br.bidFilled <==> TakenByMove(b0)) && !br.askFilled
          && (br.drift == -p.moveTicks || (br.bidFilled && br.drift == 0.0)))
    && (br.move.Held? ==> br.drift == 0.0)
  }

  // Levels a quote moves out by: away from a move that leaves it behind.
  function MovedOut(m: Move, bid: bool): int {
    match m
    case Up => if bid then 1 else -1
    case Down => if bid then -1 else 1
    case Held => 0
  }

  // A quote is gone if it filled or left the levels; a move keeps its queue place.
  predicate Stands(side: nat, side': nat, filled: bool, m: Move, shift: int) {
    && (side' != NO_QUOTE ==> Shifted(side, side', shift) && (!m.Held? ==> QueueOf(side') == QueueOf(side)))
    && (Quoting(side) && !filled && 0 <= LevelOf(side) + shift < QUOTE_LEVELS ==> side' != NO_QUOTE)
  }

  predicate Shifted(side: nat, side': nat, shift: int) {
    Quoting(side) && LevelOf(side') == LevelOf(side) + shift && QueueOf(side) - 1 <= QueueOf(side') <= QueueOf(side)
  }

  ghost predicate AllSensible(p: Params, q: int, b0: nat, a0: nat, bs: seq<Branch>)
    requires Shaped(p) && b0 < SIDE_STATES && a0 < SIDE_STATES
  {
    forall k | 0 <= k < |bs| :: Sensible(p, q, b0, a0, bs[k]) && bs[k].prob >= 0.0
  }

  lemma SidesAreProbs(p: Params, side: nat)
    requires Shaped(p) && ParamsOk(p) && side < SIDE_STATES
    ensures Prob(FillProb(p, side)) && Prob(AdvanceProb(p, side))
    ensures !Quoting(side) ==> FillProb(p, side) == 0.0
  {
  }

  lemma MovesSensible(p: Params, q: int, b0: nat, a0: nat, pm: real)
    requires Shaped(p) && ParamsOk(p) && b0 < SIDE_STATES && a0 < SIDE_STATES && pm >= 0.0
    ensures AllSensible(p, q, b0, a0, UpPart(p, q, b0, a0, pm))
    ensures AllSensible(p, q, b0, a0, DownPart(p, q, b0, a0, pm))
  {
    hide Times;
    Positive(pm, p.pMoveAdverse);
    Positive(pm, 1.0 - p.pMoveAdverse);
  }

  lemma Positive(x: real, y: real)
    requires x >= 0.0 && y >= 0.0
    ensures Times(x, y) >= 0.0
  {
  }

  lemma Positive4(x: real, y: real, z: real, w: real)
    requires x >= 0.0 && y >= 0.0 && z >= 0.0 && w >= 0.0
    ensures Times(Times(x, y), z) >= 0.0 && Times(Times(Times(x, y), z), w) >= 0.0
    ensures y == 0.0 || z == 0.0 ==> Times(Times(x, y), z) == 0.0 && Times(Times(Times(x, y), z), w) == 0.0
  {
    hide Times;
    Positive(x, y);
    Positive(Times(x, y), z);
    Positive(Times(Times(x, y), z), w);
    TimesZero(x);
    TimesZero(Times(x, y));
    TimesZero(z);
    TimesZero(w);
  }

  lemma FilledSensible(p: Params, q: int, b0: nat, a0: nat, pf: real)
    requires Shaped(p) && ParamsOk(p) && b0 < SIDE_STATES && a0 < SIDE_STATES && pf >= 0.0
    ensures AllSensible(p, q, b0, a0, FilledBranches(p, q, b0, a0, pf))
  {
    hide ParamsOk, FillProb, AdvanceProb, EdgeOf, Times;
    SidesAreProbs(p, b0);
    SidesAreProbs(p, a0);
    var pb, pa, qb, qa := FillProb(p, b0), FillProb(p, a0), AdvanceProb(p, b0), AdvanceProb(p, a0);
    Positive4(pf, pb, pa, 1.0);
    Positive4(pf, pb, 1.0 - pa, 1.0 - qa);
    Positive4(pf, pb, 1.0 - pa, qa);
    Positive4(pf, 1.0 - pb, pa, 1.0 - qb);
    Positive4(pf, 1.0 - pb, pa, qb);
  }

  lemma RestingSensible(p: Params, q: int, b0: nat, a0: nat, pf: real)
    requires Shaped(p) && ParamsOk(p) && b0 < SIDE_STATES && a0 < SIDE_STATES && pf >= 0.0
    ensures AllSensible(p, q, b0, a0, RestingBranches(p, q, b0, a0, pf))
  {
    hide ParamsOk, FillProb, AdvanceProb, Times;
    SidesAreProbs(p, b0);
    SidesAreProbs(p, a0);
    var pb, pa, qb, qa := FillProb(p, b0), FillProb(p, a0), AdvanceProb(p, b0), AdvanceProb(p, a0);
    Positive4(pf, 1.0 - pb, 1.0 - pa, 1.0);
    var rest := Times(Times(pf, 1.0 - pb), 1.0 - pa);
    Positive4(rest, 1.0 - qb, 1.0 - qa, 1.0);
    Positive4(rest, qb, 1.0 - qa, 1.0);
    Positive4(rest, 1.0 - qb, qa, 1.0);
    Positive4(rest, qb, qa, 1.0);
  }

  lemma HeldSensible(p: Params, q: int, b0: nat, a0: nat, pf: real)
    requires Shaped(p) && ParamsOk(p) && b0 < SIDE_STATES && a0 < SIDE_STATES && pf >= 0.0
    ensures AllSensible(p, q, b0, a0, HeldPart(p, q, b0, a0, pf))
  {
    hide ParamsOk, Sensible, FilledBranches, RestingBranches;
    FilledSensible(p, q, b0, a0, pf);
    RestingSensible(p, q, b0, a0, pf);
  }

  lemma SensibleConcat(p: Params, q: int, b0: nat, a0: nat, x: seq<Branch>, y: seq<Branch>)
    requires Shaped(p) && b0 < SIDE_STATES && a0 < SIDE_STATES
    requires AllSensible(p, q, b0, a0, x) && AllSensible(p, q, b0, a0, y)
    ensures AllSensible(p, q, b0, a0, x + y)
  {
    hide Sensible;
  }

  lemma BranchesSensible(p: Params, s: State, a: Action)
    requires Shaped(p) && ParamsOk(p) && ValidState(s) && ValidAction(a)
    ensures AllSensible(p, s.inventory, ApplyAction(s.bid, a.bid), ApplyAction(s.ask, a.ask), Branches(p, s, a))
  {
    hide ApplyAction, Sensible, AllSensible, ParamsOk, UpPart, DownPart, HeldPart;
    var q, b0, a0 := s.inventory, ApplyAction(s.bid, a.bid), ApplyAction(s.ask, a.ask);
    MoveProbs(p, s.imb);
    var pu, pd := p.pUp[s.imb], p.pDown[s.imb];
    MovesSensible(p, q, b0, a0, pu);
    MovesSensible(p, q, b0, a0, pd);
    HeldSensible(p, q, b0, a0, 1.0 - pu - pd);
    var u, d := UpPart(p, q, b0, a0, pu), DownPart(p, q, b0, a0, pd);
    SensibleConcat(p, q, b0, a0, u, d);
    SensibleConcat(p, q, b0, a0, u + d, HeldPart(p, q, b0, a0, 1.0 - pu - pd));
  }

  // The position limit on actions does all the work: no possible outcome of an
  // admissible action is past it, so the clamp on inventory changes nothing.
  lemma ClampNeverActs(p: Params, state: nat, action: nat, k: nat)
    requires Shaped(p) && ParamsOk(p) && state < NUM_STATES && action < NUM_ACTIONS && Admissible(state, action)
    requires ValidState(Decode(state)) && ValidAction(DecodeAction(action))
    requires k < |Branches(p, Decode(state), DecodeAction(action))|
    ensures var br := Branches(p, Decode(state), DecodeAction(action))[k];
            br.prob > 0.0 ==> ClampInv(br.inventory) == br.inventory
  {
    hide ParamsOk, Branches;
    var s, a := Decode(state), DecodeAction(action);
    BranchesSensible(p, s, a);
    assert Sensible(p, s.inventory, ApplyAction(s.bid, a.bid), ApplyAction(s.ask, a.ask), Branches(p, s, a)[k]);
  }

  // ---- transitions: every branch, for every imbalance that can follow ----

  datatype Transition = Transition(next: nat, prob: real, reward: real)

  // The move marks the inventory held after the fill.
  function Reward(p: Params, inventory: int, edge: real, drift: real): real {
    edge + Times(inventory as real, drift) - Times(Times(p.inventoryPenalty, inventory as real), inventory as real)
  }

  function TransitionTo(p: Params, imb: nat, br: Branch, j: nat): Transition
    requires Shaped(p) && imb < IMB_BUCKETS && j < IMB_BUCKETS && br.bid < SIDE_STATES && br.ask < SIDE_STATES
  {
    var q := ClampInv(br.inventory);
    Transition(Encode(State(q, br.bid, br.ask, j)), Times(br.prob, p.imb[imb][j]), Reward(p, q, br.edge, br.drift))
  }

  // The first n imbalances a branch can lead to; impossible ones are left out.
  function Spread(p: Params, imb: nat, br: Branch, n: nat): seq<Transition>
    requires Shaped(p) && imb < IMB_BUCKETS && n <= IMB_BUCKETS && br.bid < SIDE_STATES && br.ask < SIDE_STATES
  {
    if n == 0 || br.prob <= 0.0 then []
    else Spread(p, imb, br, n - 1) + if p.imb[imb][n - 1] <= 0.0 then [] else [TransitionTo(p, imb, br, n - 1)]
  }

  function SpreadAll(p: Params, imb: nat, bs: seq<Branch>): seq<Transition>
    requires Shaped(p) && imb < IMB_BUCKETS && OnGrid(bs)
  {
    if bs == [] then [] else SpreadAll(p, imb, bs[..|bs| - 1]) + Spread(p, imb, bs[|bs| - 1], IMB_BUCKETS)
  }

  function Mass(ts: seq<Transition>): real {
    if ts == [] then 0.0 else Mass(ts[..|ts| - 1]) + ts[|ts| - 1].prob
  }

  lemma {:induction false} MassConcat(x: seq<Transition>, y: seq<Transition>)
    ensures Mass(x + y) == Mass(x) + Mass(y)
    decreases |y|
  {
    if y == [] {
      assert x + y == x;
    } else {
      assert (x + y)[..|x + y| - 1] == x + y[..|y| - 1];
      MassConcat(x, y[..|y| - 1]);
    }
  }

  lemma MassOne(t: Transition)
    ensures Mass([t]) == t.prob
  {
    assert [t][..0] == [];
  }

  lemma TimesSum(x: real, y: real, z: real)
    ensures Times(x, y + z) == Times(x, y) + Times(x, z) && Times(y + z, x) == Times(y, x) + Times(z, x)
  {
  }

  lemma SpreadStep(p: Params, imb: nat, br: Branch, n: nat)
    requires Shaped(p) && imb < IMB_BUCKETS && n < IMB_BUCKETS && br.bid < SIDE_STATES && br.ask < SIDE_STATES
    requires AllProb(p.imb[imb]) && br.prob >= 0.0
    ensures Mass(Spread(p, imb, br, n + 1)) == Mass(Spread(p, imb, br, n)) + Times(br.prob, p.imb[imb][n])
  {
    hide Times, Encode, Reward, Mass;
    TimesZero(br.prob);
    TimesZero(p.imb[imb][n]);
    assert Prob(p.imb[imb][n]);
    if br.prob > 0.0 {
      var t := TransitionTo(p, imb, br, n);
      MassConcat(Spread(p, imb, br, n), [t]);
      MassConcat(Spread(p, imb, br, n), []);
      MassOne(t);
    }
    assert Mass([]) == 0.0 by { MassNone(); }
  }

  lemma MassNone()
    ensures Mass([]) == 0.0
  {
  }

  lemma {:induction false} SpreadMass(p: Params, imb: nat, br: Branch, n: nat)
    requires Shaped(p) && imb < IMB_BUCKETS && n <= IMB_BUCKETS && br.bid < SIDE_STATES && br.ask < SIDE_STATES
    requires AllProb(p.imb[imb]) && br.prob >= 0.0
    ensures Mass(Spread(p, imb, br, n)) == Times(br.prob, SumTo(p.imb[imb], n))
  {
    hide Times, Spread, Mass, AllProb;
    if n == 0 {
      TimesZero(br.prob);
      NoSpread(p, imb, br);
    } else {
      SpreadMass(p, imb, br, n - 1);
      SpreadStep(p, imb, br, n - 1);
      TimesSum(br.prob, SumTo(p.imb[imb], n - 1), p.imb[imb][n - 1]);
    }
  }

  lemma NoSpread(p: Params, imb: nat, br: Branch)
    requires Shaped(p) && imb < IMB_BUCKETS && br.bid < SIDE_STATES && br.ask < SIDE_STATES
    ensures Mass(Spread(p, imb, br, 0)) == 0.0
  {
  }

  lemma {:induction false} SpreadAllMass(p: Params, imb: nat, bs: seq<Branch>)
    requires Shaped(p) && imb < IMB_BUCKETS && OnGrid(bs) && AllProb(p.imb[imb])
    requires forall k | 0 <= k < |bs| :: bs[k].prob >= 0.0
    ensures Mass(SpreadAll(p, imb, bs)) == Times(Tallied(bs).mass, RowSum(p, imb))
  {
    hide Times, Spread;
    TimesZero(RowSum(p, imb));
    if bs != [] {
      var n := |bs| - 1;
      SpreadAllMass(p, imb, bs[..n]);
      SpreadMass(p, imb, bs[n], IMB_BUCKETS);
      MassConcat(SpreadAll(p, imb, bs[..n]), Spread(p, imb, bs[n], IMB_BUCKETS));
      TimesSum(RowSum(p, imb), Tallied(bs[..n]).mass, bs[n].prob);
    }
  }

  // What expand enumerates.
  function Successors(p: Params, state: nat, action: nat): seq<Transition>
    requires Shaped(p) && state < NUM_STATES && action < NUM_ACTIONS
  {
    EncodeDecode(state);
    ActionRoundTrip(DecodeAction(action), action);
    SpreadAll(p, Decode(state).imb, Branches(p, Decode(state), DecodeAction(action)))
  }

  // The successors' probabilities sum to exactly the sum of the imbalance row.
  lemma SuccessorMass(p: Params, state: nat, action: nat)
    requires Shaped(p) && ParamsOk(p) && state < NUM_STATES && action < NUM_ACTIONS
    ensures Decode(state).imb < IMB_BUCKETS
    ensures Mass(Successors(p, state, action)) == RowSum(p, Decode(state).imb)
  {
    hide ParamsOk, Branches, Decode, DecodeAction, ApplyAction, SpreadAll, Sensible;
    EncodeDecode(state);
    ActionRoundTrip(DecodeAction(action), action);
    var s, a := Decode(state), DecodeAction(action);
    BranchesTally(p, s, a);
    BranchesSensible(p, s, a);
    RowIsProb(p, s.imb);
    SpreadAllMass(p, s.imb, Branches(p, s, a));
  }

  lemma RowIsProb(p: Params, i: nat)
    requires Shaped(p) && ParamsOk(p) && i < IMB_BUCKETS
    ensures AllProb(p.imb[i])
  {
    assert RowOk(p, i);
  }

  lemma {:induction false} SpreadValid(p: Params, imb: nat, br: Branch, n: nat)
    requires Shaped(p) && imb < IMB_BUCKETS && n <= IMB_BUCKETS && br.bid < SIDE_STATES && br.ask < SIDE_STATES
    ensures AllValid(Spread(p, imb, br, n))
  {
    hide Encode;
    if n > 0 && br.prob > 0.0 {
      SpreadValid(p, imb, br, n - 1);
      DecodeEncode(State(ClampInv(br.inventory), br.bid, br.ask, n - 1));
    }
  }

  ghost predicate AllValid(ts: seq<Transition>) {
    forall k | 0 <= k < |ts| :: ts[k].prob > 0.0 && ts[k].next < NUM_STATES
  }

  lemma {:induction false} SpreadAllValid(p: Params, imb: nat, bs: seq<Branch>)
    requires Shaped(p) && imb < IMB_BUCKETS && OnGrid(bs)
    ensures AllValid(SpreadAll(p, imb, bs))
  {
    hide Spread;
    if bs != [] {
      SpreadAllValid(p, imb, bs[..|bs| - 1]);
      SpreadValid(p, imb, bs[|bs| - 1], IMB_BUCKETS);
    }
  }

  // Every successor is a state of the grid, reached with positive probability.
  lemma SuccessorsValid(p: Params, state: nat, action: nat)
    requires Shaped(p) && state < NUM_STATES && action < NUM_ACTIONS
    ensures AllValid(Successors(p, state, action))
  {
    hide Branches, Decode, DecodeAction;
    EncodeDecode(state);
    ActionRoundTrip(DecodeAction(action), action);
    SpreadAllValid(p, Decode(state).imb, Branches(p, Decode(state), DecodeAction(action)));
  }
}
