// The policy's state and action discretisation: eleven inventories, sixteen side
// states a side, five imbalance buckets; and its packing into one code.
module PolicyState {
  const MAX_INVENTORY := 5
  const QUEUE_BUCKETS := 5
  const QUOTE_LEVELS := 3
  const SIDE_STATES := 16        // no quote, and three levels of five queue buckets
  const IMB_BUCKETS := 5
  const NUM_STATES := 14080      // 11 * 16 * 16 * 5
  const SIDE_ACTIONS := 4        // no quote, and three levels
  const NUM_ACTIONS := 16
  const NO_QUOTE := 0
  const BACK_OF_QUEUE := 4

  datatype State = State(inventory: int, bid: nat, ask: nat, imb: nat)

  datatype Action = Action(bid: nat, ask: nat)

  predicate ValidState(s: State) {
    -MAX_INVENTORY <= s.inventory <= MAX_INVENTORY && s.bid < SIDE_STATES && s.ask < SIDE_STATES && s.imb < IMB_BUCKETS
  }

  predicate ValidAction(a: Action) {
    a.bid < SIDE_ACTIONS && a.ask < SIDE_ACTIONS
  }

  predicate Quoting(side: nat) {
    0 < side < SIDE_STATES
  }

  function LevelOf(side: nat): int {
    if side == 0 then -1 else (side - 1) / QUEUE_BUCKETS
  }

  function QueueOf(side: nat): int {
    if side == 0 then -1 else (side - 1) % QUEUE_BUCKETS
  }

  function MakeSide(level: nat, queue: nat): nat {
    1 + level * QUEUE_BUCKETS + queue
  }

  function Encode(s: State): nat
    requires ValidState(s)
  {
    (((s.inventory + MAX_INVENTORY) * SIDE_STATES + s.bid) * SIDE_STATES + s.ask) * IMB_BUCKETS + s.imb
  }

  function Decode(code: nat): State {
    var c1 := code / IMB_BUCKETS;
    var c2 := c1 / SIDE_STATES;
    State(c2 / SIDE_STATES - MAX_INVENTORY, c2 % SIDE_STATES, c1 % SIDE_STATES, code % IMB_BUCKETS)
  }

  function EncodeAction(a: Action): nat {
    a.bid * SIDE_ACTIONS + a.ask
  }

  function DecodeAction(code: nat): Action {
    Action(code / SIDE_ACTIONS, code % SIDE_ACTIONS)
  }

  // ---- packing and unpacking are inverse, both ways ----

  lemma DecodeEncode(s: State)
    requires ValidState(s)
    ensures Encode(s) < NUM_STATES && Decode(Encode(s)) == s
  {
    var c2 := (s.inventory + MAX_INVENTORY) * SIDE_STATES + s.bid;
    var c1 := c2 * SIDE_STATES + s.ask;
    assert (c1 * IMB_BUCKETS + s.imb) / IMB_BUCKETS == c1;
    assert (c2 * SIDE_STATES + s.ask) / SIDE_STATES == c2;
  }

  lemma EncodeDecode(code: nat)
    requires code < NUM_STATES
    ensures ValidState(Decode(code)) && Encode(Decode(code)) == code
  {
  }

  lemma ActionRoundTrip(a: Action, code: nat)
    ensures ValidAction(a) ==> EncodeAction(a) < NUM_ACTIONS && DecodeAction(EncodeAction(a)) == a
    ensures code < NUM_ACTIONS ==> ValidAction(DecodeAction(code)) && EncodeAction(DecodeAction(code)) == code
  {
  }

  lemma SideRoundTrip(level: nat, queue: nat, side: nat)
    ensures level < QUOTE_LEVELS && queue < QUEUE_BUCKETS ==>
              Quoting(MakeSide(level, queue)) && LevelOf(MakeSide(level, queue)) == level
                && QueueOf(MakeSide(level, queue)) == queue
    ensures Quoting(side) ==>
              0 <= LevelOf(side) < QUOTE_LEVELS && 0 <= QueueOf(side) < QUEUE_BUCKETS
                && MakeSide(LevelOf(side), QueueOf(side)) == side
  {
  }

  // ---- bucketing at run time ----

  const IMB_EDGES: seq<real> := [-0.6, -0.2, 0.2, 0.6]
  const QUEUE_EDGES: seq<real> := [0.02, 0.10, 0.35]

  // The bucket is the number of edges the imbalance is above.
  method ImbBucket(imbalance: real) returns (b: nat)
    ensures b < IMB_BUCKETS
    ensures forall i | 0 <= i < |IMB_EDGES| :: IMB_EDGES[i] < imbalance <==> i < b
  {
    b := 0;
    for i := 0 to IMB_BUCKETS - 1
      invariant b <= i
      invariant forall j | 0 <= j < i :: IMB_EDGES[j] < imbalance <==> j < b
    {
      assert i > 0 ==> IMB_EDGES[i - 1] < IMB_EDGES[i];
      if imbalance > IMB_EDGES[i] {
        b := i + 1;
      }
    }
  }

  // Where a bucket begins, as a fraction of the reference depth.
  function QueueFloor(b: nat): real
    requires b < QUEUE_BUCKETS
  {
    if b <= 1 then 0.0 else QUEUE_EDGES[b - 2]
  }

  // Alone is its own bucket; otherwise the bucket is the one whose floor the
  // fraction has passed and whose ceiling it has not.
  method QueueBucket(ahead: int, scale: int) returns (b: nat)
    ensures b < QUEUE_BUCKETS
    ensures b == 0 <==> ahead <= 0
    ensures ahead > 0 && scale <= 0 ==> b == BACK_OF_QUEUE
    ensures ahead > 0 && scale > 0 ==>
              var f := ahead as real / scale as real;
              QueueFloor(b) < f && (b + 1 < QUEUE_BUCKETS ==> f <= QueueFloor(b + 1))
  {
    if ahead <= 0 {
      return 0;
    }
    if scale <= 0 {
      return QUEUE_BUCKETS - 1;
    }
    var f := ahead as real / scale as real;
    FractionPositive(ahead, scale);
    b := 1;
    for i := 0 to QUEUE_BUCKETS - 2
      invariant 1 <= b <= i + 1
      invariant QueueFloor(b) < f && (b < i + 1 ==> f <= QueueFloor(b + 1))
    {
      if f > QUEUE_EDGES[i] {
        b := i + 2;
      }
    }
  }

  lemma FractionPositive(ahead: int, scale: int)
    requires ahead > 0 && scale > 0
    ensures ahead as real / scale as real > 0.0
  {
  }
}
