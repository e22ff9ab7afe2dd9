// The id map: one array of slots, probed linearly and cyclically, whose deletion
// shifts later entries back. The hash is an arbitrary function.
//
// Probe positions are cyclic. `Dist(n, a, b)` is how many steps forward from a
// reach b, and the probe chain of a key is every slot from its ideal one to the
// one it occupies.
module OrderMaps {
  import opened Types
  import opened Bits

  // find() answers this for an absent key, so no stored value may equal it.
  const EMPTY: nat := 0xFFFF_FFFF

  datatype Slot = Slot(key: OrderId, value: nat, used: bool)

  type Hash = OrderId -> nat

  // The slot after the i-th, cyclically; (i + 1) & mask in the table.
  function Next(n: nat, i: nat): (j: nat)
    requires i < n
    ensures j < n
  {
    if i + 1 == n then 0 else i + 1
  }

  function Dist(n: nat, a: nat, b: nat): (d: nat)
    requires a < n && b < n
    ensures d < n
  {
    if a <= b then b - a else b - a + n
  }

  function Ideal(hash: Hash, n: nat, key: OrderId): (i: nat)
    requires n > 0
    ensures i < n
  {
    hash(key) % n
  }

  // How far the entry in slot x sits from its ideal slot.
  function Displacement(s: seq<Slot>, hash: Hash, x: nat): nat
    requires x < |s|
  {
    Dist(|s|, Ideal(hash, |s|, s[x].key), x)
  }

  // Slot y lies on the probe chain of the entry in slot x.
  predicate OnChain(s: seq<Slot>, hash: Hash, x: nat, y: nat)
    requires x < |s| && y < |s|
  {
    Dist(|s|, Ideal(hash, |s|, s[x].key), y) <= Displacement(s, hash, x)
  }

  predicate Twins(s: seq<Slot>, x: nat, y: nat) {
    x < |s| && y < |s| && s[x].used && s[y].used && s[x].key == s[y].key
  }

  ghost predicate Unique(s: seq<Slot>) {
    forall x: nat, y: nat :: Twins(s, x, y) ==> x == y
  }

  lemma UniqueSlots(s: seq<Slot>)
    requires Unique(s)
    ensures forall x, y | 0 <= x < |s| && 0 <= y < |s| && s[x].used && s[y].used && s[x].key == s[y].key :: x == y
  {
    forall x, y | 0 <= x < |s| && 0 <= y < |s| && s[x].used && s[y].used && s[x].key == s[y].key
      ensures x == y
    {
      assert Twins(s, x, y);
    }
  }

  // Every chain is free of holes, except possibly at `hole`.
  ghost predicate ChainsBut(s: seq<Slot>, hash: Hash, hole: int) {
    forall x, y {:trigger OnChain(s, hash, x, y)} |
      0 <= x < |s| && 0 <= y < |s| && s[x].used && OnChain(s, hash, x, y) :: s[y].used || y == hole
  }

  ghost predicate Sound(s: seq<Slot>, hash: Hash) {
    Unique(s) && ChainsBut(s, hash, -1)
  }

  // The finite map the table stands for.
  ghost function ContentsOf(s: seq<Slot>): map<OrderId, nat>
    requires Unique(s)
  {
    UniqueSlots(s);
    map x | 0 <= x < |s| && s[x].used :: s[x].key := s[x].value
  }

  function Freed(s: seq<Slot>, i: nat): seq<Slot>
    requires i < |s|
  {
    s[i := s[i].(used := false)]
  }

  // ---- lemmas on slot sequences ----

  lemma ContentsAt(s: seq<Slot>, x: nat)
    requires Unique(s) && x < |s| && s[x].used
    ensures s[x].key in ContentsOf(s) && ContentsOf(s)[s[x].key] == s[x].value
  {
    UniqueSlots(s);
  }

  lemma ContentsAfterUse(s: seq<Slot>, i: nat, key: OrderId, value: nat)
    requires Unique(s) && i < |s| && !s[i].used && key !in ContentsOf(s)
    ensures Unique(s[i := Slot(key, value, true)])
    ensures ContentsOf(s[i := Slot(key, value, true)]) == ContentsOf(s)[key := value]
  {
    var t := s[i := Slot(key, value, true)];
    forall x: nat | x < |s| && s[x].used ensures s[x].key != key {
      ContentsAt(s, x);
    }
    forall x: nat, y: nat | Twins(t, x, y) ensures x == y {
      assert Twins(s, x, y) || x == i || y == i;
    }
    var m, m' := ContentsOf(s)[key := value], ContentsOf(t);
    assert t[i].used;
    forall k | k in m ensures k in m' && m'[k] == m[k] {
      if k == key {
        ContentsAt(t, i);
      } else {
        var x :| 0 <= x < |s| && s[x].used && s[x].key == k;
        assert t[x] == s[x];
        ContentsAt(s, x);
        ContentsAt(t, x);
      }
    }
  }

  lemma ContentsAfterFree(s: seq<Slot>, i: nat)
    requires Unique(s) && i < |s| && s[i].used
    ensures Unique(Freed(s, i))
    ensures ContentsOf(Freed(s, i)) == ContentsOf(s) - {s[i].key}
  {
    var t := Freed(s, i);
    forall x: nat, y: nat | Twins(t, x, y) ensures x == y {
      assert Twins(s, x, y);
    }
    var m, m' := ContentsOf(s) - {s[i].key}, ContentsOf(t);
    forall k | k in m' ensures k in m {
      var x: nat :| x < |t| && t[x].used && t[x].key == k;
      ContentsAt(s, x);
      assert Twins(s, x, i) <==> s[x].key == s[i].key;
    }
    forall k | k in m ensures k in m' && m'[k] == m[k] {
      var x :| 0 <= x < |s| && s[x].used && s[x].key == k;
      assert t[x] == s[x];
      ContentsAt(s, x);
      ContentsAt(t, x);
    }
  }

  // Moving an entry into an unused slot leaves the map it stands for alone.
  lemma ContentsAfterMove(s: seq<Slot>, i: nat, j: nat)
    requires Unique(s) && i < |s| && j < |s| && !s[i].used && s[j].used
    ensures Unique(Freed(s[i := s[j]], j))
    ensures ContentsOf(Freed(s[i := s[j]], j)) == ContentsOf(s)
  {
    var f := Freed(s, j);
    ContentsAfterFree(s, j);
    ContentsAfterUse(f, i, s[j].key, s[j].value);
    assert f[i := Slot(s[j].key, s[j].value, true)] == Freed(s[i := s[j]], j);
    ContentsAt(s, j);
  }

  // A table with every slot used holds as many keys as it has slots.
  lemma {:induction false} FullSize(s: seq<Slot>)
    requires Unique(s) && forall x | 0 <= x < |s| :: s[x].used
    ensures |ContentsOf(s)| == |s|
  {
    if s == [] {
    } else {
      var t, last := s[..|s| - 1], s[|s| - 1];
      ContentsOfPrefix(s);
      FullSize(t);
    }
  }

  lemma ContentsOfPrefix(s: seq<Slot>)
    requires s != [] && Unique(s) && s[|s| - 1].used
    ensures var t, last := s[..|s| - 1], s[|s| - 1];
            Unique(t) && last.key !in ContentsOf(t) && ContentsOf(s) == ContentsOf(t)[last.key := last.value]
  {
    var t, last := s[..|s| - 1], s[|s| - 1];
    forall x: nat, y: nat | Twins(t, x, y) ensures x == y {
      assert Twins(s, x, y);
    }
    forall x: nat | x < |t| && t[x].used ensures t[x].key != last.key {
      assert !Twins(s, x, |t|);
    }
    var m, m' := ContentsOf(t)[last.key := last.value], ContentsOf(s);
    forall k | k in m ensures k in m' && m'[k] == m[k] {
      if k == last.key {
        ContentsAt(s, |s| - 1);
      } else {
        var x :| 0 <= x < |t| && t[x].used && t[x].key == k;
        ContentsAt(t, x);
        assert s[x] == t[x];
        ContentsAt(s, x);
      }
    }
    forall k | k in m' ensures k in m {
      var x :| 0 <= x < |s| && s[x].used && s[x].key == k;
      if x < |t| {
        assert t[x] == s[x];
        ContentsAt(t, x);
      }
    }
  }

  lemma UnusedSlot(s: seq<Slot>) returns (e: nat)
    requires Unique(s) && |ContentsOf(s)| < |s|
    ensures e < |s| && !s[e].used
  {
    if forall x | 0 <= x < |s| :: s[x].used {
      FullSize(s);
      assert false;
    }
    e :| e < |s| && !s[e].used;
  }

  // Every slot a probe from `h` for `key` passes before `i` holds another key.
  ghost predicate Passed(s: seq<Slot>, h: nat, key: OrderId, i: nat)
    requires h < |s| && i < |s|
  {
    forall y | 0 <= y < |s| && Dist(|s|, h, y) < Dist(|s|, h, i) :: s[y].used && s[y].key != key
  }

  lemma PassedStep(s: seq<Slot>, h: nat, key: OrderId, i: nat, stop: nat)
    requires h < |s| && i < |s| && stop < |s| && Passed(s, h, key, i)
    requires s[i].used && s[i].key != key && (!s[stop].used || s[stop].key == key)
    requires Dist(|s|, h, i) <= Dist(|s|, h, stop)
    ensures var j := Next(|s|, i);
            Passed(s, h, key, j) && Dist(|s|, h, i) < Dist(|s|, h, j) <= Dist(|s|, h, stop)
  {
  }

  // A probe that met only other keys and then an unused slot proves absence.
  lemma ProbeMiss(s: seq<Slot>, hash: Hash, key: OrderId, i: nat)
    requires Sound(s, hash) && i < |s| && !s[i].used
    requires Passed(s, Ideal(hash, |s|, key), key, i)
    ensures key !in ContentsOf(s)
  {
    var h := Ideal(hash, |s|, key);
    forall x | 0 <= x < |s| && s[x].used
      ensures s[x].key != key
    {
      assert OnChain(s, hash, x, i) == (Dist(|s|, Ideal(hash, |s|, s[x].key), i) <= Displacement(s, hash, x));
    }
  }

  lemma SoundAfterInsert(s: seq<Slot>, hash: Hash, key: OrderId, value: nat, i: nat)
    requires Sound(s, hash) && i < |s| && !s[i].used
    requires Passed(s, Ideal(hash, |s|, key), key, i)
    ensures var t := s[i := Slot(key, value, true)];
            Sound(t, hash) && ContentsOf(t) == ContentsOf(s)[key := value]
  {
    ProbeMiss(s, hash, key, i);
    ContentsAfterUse(s, i, key, value);
    var t := s[i := Slot(key, value, true)];
    forall x, y | 0 <= x < |t| && 0 <= y < |t| && t[x].used && OnChain(t, hash, x, y)
      ensures t[y].used
    {
      if x != i && y != i {
        assert t[x] == s[x] && OnChain(s, hash, x, y);
      } else if x == i && y != i {
        var h := Ideal(hash, |s|, key);
        assert Dist(|s|, h, y) != Dist(|s|, h, i);
      }
    }
  }

  // ---- backward shift ----

  // The test erase_at makes: is ideal slot k cyclically inside (i, j]?
  predicate Blocked(i: nat, j: nat, k: nat) {
    if i <= j then i < k && k <= j else i < k || k <= j
  }

  lemma BlockedMeansOffChain(s: seq<Slot>, hash: Hash, i: nat, j: nat)
    requires i < |s| && j < |s| && i != j
    ensures Blocked(i, j, Ideal(hash, |s|, s[j].key)) <==> !OnChain(s, hash, j, i)
  {
  }

  // Slots 1..d steps past the hole are used, and none of their chains needs it.
  ghost predicate Scanned(s: seq<Slot>, hash: Hash, i: nat, d: nat)
    requires i < |s|
  {
    forall y | 0 <= y < |s| && 0 < Dist(|s|, i, y) <= d :: s[y].used && !OnChain(s, hash, y, i)
  }

  // An unused slot d + 1 steps on ends every chain the hole could have broken.
  lemma HoleIsHarmless(s: seq<Slot>, hash: Hash, i: nat, d: nat, j: nat)
    requires i < |s| && j < |s| && d < |s| && !s[i].used && !s[j].used
    requires Unique(s) && ChainsBut(s, hash, i) && Scanned(s, hash, i, d)
    requires if d + 1 == |s| then j == i else Dist(|s|, i, j) == d + 1
    ensures Sound(s, hash)
  {
    forall x, y | 0 <= x < |s| && 0 <= y < |s| && s[x].used && OnChain(s, hash, x, y)
      ensures s[y].used
    {
      if y == i {
        assert Dist(|s|, i, x) > d;
        assert OnChain(s, hash, x, j);
      }
    }
  }

  // Moving the entry at j back into the hole at i moves the hole to j.
  lemma HoleMoves(s: seq<Slot>, hash: Hash, i: nat, d: nat, j: nat)
    requires i < |s| && j < |s| && d + 1 < |s| && Dist(|s|, i, j) == d + 1
    requires !s[i].used && s[j].used && OnChain(s, hash, j, i)
    requires ChainsBut(s, hash, i) && Scanned(s, hash, i, d)
    ensures var t := Freed(s[i := s[j]], j);
            ChainsBut(t, hash, j) && Displacement(t, hash, i) < Displacement(s, hash, j)
  {
    assert i != j;
    var t := Freed(s[i := s[j]], j);
    forall x, y | 0 <= x < |t| && 0 <= y < |t| && t[x].used && OnChain(t, hash, x, y)
      ensures t[y].used || y == j
    {
      if y != i && y != j {
        if x == i {
          assert OnChain(s, hash, j, y);
        } else {
          assert OnChain(s, hash, x, y);
        }
      }
    }
  }

  // Total displacement, which every move lowers: the scan cannot go round forever.
  ghost function TotalDisplacement(s: seq<Slot>, hash: Hash, upTo: nat): nat
    requires upTo <= |s|
  {
    if upTo == 0 then 0
    else TotalDisplacement(s, hash, upTo - 1) + (if s[upTo - 1].used then Displacement(s, hash, upTo - 1) else 0)
  }

  lemma {:induction false} TotalAfterMove(s: seq<Slot>, hash: Hash, i: nat, j: nat, upTo: nat)
    requires i < |s| && j < |s| && i != j && upTo <= |s| && !s[i].used && s[j].used
    ensures var t := Freed(s[i := s[j]], j);
            TotalDisplacement(t, hash, upTo)
            == TotalDisplacement(s, hash, upTo)
               + (if i < upTo then Displacement(t, hash, i) else 0)
               - (if j < upTo then Displacement(s, hash, j) else 0)
  {
    if upTo > 0 {
      TotalAfterMove(s, hash, i, j, upTo - 1);
    }
  }

  // The table mid-erase: the map is already `m`, and slot i is the one hole.
  ghost predicate Holed(s: seq<Slot>, hash: Hash, i: nat, m: map<OrderId, nat>) {
    i < |s| && !s[i].used && Unique(s) && ContentsOf(s) == m && ChainsBut(s, hash, i)
  }

  lemma HoledAfterFree(s: seq<Slot>, hash: Hash, i: nat)
    requires Sound(s, hash) && i < |s| && s[i].used
    ensures Holed(Freed(s, i), hash, i, ContentsOf(s) - {s[i].key})
  {
    ContentsAfterFree(s, i);
    var t := Freed(s, i);
    forall x, y | 0 <= x < |t| && 0 <= y < |t| && t[x].used && OnChain(t, hash, x, y)
      ensures t[y].used || y == i
    {
      assert OnChain(s, hash, x, y);
    }
  }

  lemma HoledAfterMove(s: seq<Slot>, hash: Hash, i: nat, d: nat, j: nat, m: map<OrderId, nat>)
    requires Holed(s, hash, i, m) && Scanned(s, hash, i, d)
    requires j < |s| && d + 1 < |s| && Dist(|s|, i, j) == d + 1
    requires s[j].used && OnChain(s, hash, j, i)
    ensures var t := Freed(s[i := s[j]], j);
            Holed(t, hash, j, m) && TotalDisplacement(t, hash, |t|) < TotalDisplacement(s, hash, |s|)
  {
    HoleMoves(s, hash, i, d, j);
    ContentsAfterMove(s, i, j);
    TotalAfterMove(s, hash, i, j, |s|);
  }

  lemma ScannedStep(s: seq<Slot>, hash: Hash, i: nat, d: nat, j: nat)
    requires i < |s| && j < |s| && d + 1 < |s| && Dist(|s|, i, j) == d + 1
    requires Scanned(s, hash, i, d) && s[j].used && !OnChain(s, hash, j, i)
    ensures Scanned(s, hash, i, d + 1)
  {
  }

  // ---- sizing ----

  const CEILING: nat := 0x4000_0000_0000_0000

  // Power of two with twofold headroom, capped at 2^62 slots.
  method CapacityFor(expected: nat) returns (cap: nat)
    ensures exists k: nat :: 5 <= k <= 62 && cap == Pow2(k)
    ensures 32 <= cap <= CEILING
    ensures 2 * expected <= CEILING ==> cap >= 2 * expected
    ensures cap == 32 || cap < 4 * expected
  {
    cap := 16;
    ghost var k: nat := 4;
    assert Pow2(4) == 16;
    CeilingPower(4);
    while cap < expected && cap < CEILING
      invariant 4 <= k <= 62 && cap == Pow2(k) && 16 <= cap <= CEILING
      invariant cap == 16 || cap < 2 * expected
      decreases CEILING - cap
    {
      CeilingPower(k);
      CeilingPower(k + 1);
      cap := 2 * cap;
      k := k + 1;
    }
    if cap < CEILING {
      CeilingPower(k);
      CeilingPower(k + 1);
      cap := 2 * cap;
      k := k + 1;
    }
  }

  // The ceiling is the 62nd power of two, so doubling from 16 meets it exactly.
  lemma CeilingPower(k: nat)
    ensures Pow2(k) < CEILING <==> k < 62
    ensures Pow2(k) == CEILING <==> k == 62
  {
    Pow2Words();
    if k < 62 {
      Pow2Add(k, 62 - k);
    } else {
      Pow2Add(62, k - 62);
    }
    assert Pow2(63) == 2 * Pow2(62);
  }

  lemma NextIsRemainder(n: nat, i: nat)
    requires i < n
    ensures (i + 1) % n == Next(n, i)
  {
    if i + 1 < n {
      RemainderIs(i + 1, n, 0, i + 1);
    } else {
      RemainderIs(i + 1, n, 1, 0);
    }
  }

  // ---- the table ----

  class OrderMap {
    const hash: Hash
    const slots: array<Slot>
    const mask: nat
    var size: nat

    // The mask cuts any number down to a slot, because the length is a power of two.
    ghost predicate Masks() {
      slots.Length > 0 && mask == slots.Length - 1 && exists k: nat :: slots.Length == Pow2(k)
    }

    lemma Masked(x: nat)
      requires Masks()
      ensures And(x, mask) == x % slots.Length
    {
      var k: nat :| slots.Length == Pow2(k);
      MaskIsRemainder(x, k);
    }

    lemma MaskedNext(i: nat)
      requires Masks() && i < slots.Length
      ensures And(i + 1, mask) == Next(slots.Length, i)
    {
      hide And, Next;
      Masked(i + 1);
      NextIsRemainder(slots.Length, i);
    }

    ghost predicate Valid()
      reads this, slots
    {
      slots.Length >= 32 && Masks() && Sound(slots[..], hash) && size == |ContentsOf(slots[..])|
    }

    ghost function Contents(): map<OrderId, nat>
      requires Valid()
      reads this, slots
    {
      ContentsOf(slots[..])
    }

    constructor (expected: nat, hash: Hash)
      ensures Valid() && fresh(slots) && this.hash == hash && Contents() == map[] && size == 0
      ensures 2 * expected <= CEILING ==> slots.Length >= 2 * expected
    {
      var cap := CapacityFor(expected);
      this.hash := hash;
      this.mask := cap - 1;
      slots := new Slot[cap](_ => Slot(0, 0, false));
      size := 0;
    }

    // The slot a probe for `key` stops at: the key's own slot, or the first
    // unused one, which proves the key absent.
    method Probe(key: OrderId) returns (i: nat)
      requires Valid()
      requires key in Contents() || size < slots.Length
      ensures i < slots.Length
      ensures slots[i].used <==> key in Contents()
      ensures slots[i].used ==> slots[i].key == key && Contents()[key] == slots[i].value
      ensures !slots[i].used ==> Passed(slots[..], Ideal(hash, slots.Length, key), key, i)
    {
      ghost var s := slots[..];
      Masked(hash(key));
      var h := And(hash(key), mask);
      ghost var stop: nat;
      if key in Contents() {
        stop :| 0 <= stop < |s| && s[stop].used && s[stop].key == key;
      } else {
        stop := UnusedSlot(s);
      }
      i := h;
      while slots[i].used && slots[i].key != key
        invariant i < slots.Length && Dist(|s|, h, i) <= Dist(|s|, h, stop)
        invariant Passed(s, h, key, i)
        decreases Dist(|s|, h, stop) - Dist(|s|, h, i)
      {
        PassedStep(s, h, key, i, stop);
        MaskedNext(i);
        i := And(i + 1, mask);
      }
      if slots[i].used {
        ContentsAt(s, i);
      } else {
        ProbeMiss(s, hash, key, i);
      }
    }

    method Find(key: OrderId) returns (value: nat)
      requires Valid()
      requires key in Contents() || size < slots.Length
      ensures value == if key in Contents() then Contents()[key] else EMPTY
    {
      var i := Probe(key);
      value := if slots[i].used then slots[i].value else EMPTY;
    }

    method Insert(key: OrderId, value: nat) returns (ok: bool)
      requires Valid()
      modifies this, slots
      ensures Valid()
      ensures ok <==> old(size) < slots.Length && key !in old(Contents())
      ensures Contents() == if ok then old(Contents())[key := value] else old(Contents())
    {
      if size >= slots.Length {
        return false;
      }
      var i := Probe(key);
      if slots[i].used {
        return false;
      }
      ghost var s := slots[..];
      SoundAfterInsert(s, hash, key, value, i);
      slots[i] := Slot(key, value, true);
      assert slots[..] == s[i := Slot(key, value, true)];
      size := size + 1;
      return true;
    }

    method Erase(key: OrderId) returns (ok: bool)
      requires Valid()
      requires key in Contents() || size < slots.Length
      modifies this, slots
      ensures Valid()
      ensures ok <==> key in old(Contents())
      ensures Contents() == old(Contents()) - {key}
    {
      var i := Probe(key);
      if slots[i].used {
        EraseAt(i);
        return true;
      }
      assert Contents() - {key} == Contents();
      return false;
    }

    // The inner scan of a backward shift: walks forward from the hole to the
    // first entry whose chain needs it, or to an unused slot that ends the search.
    method FindMovable(i: nat, ghost m: map<OrderId, nat>) returns (found: bool, j: nat, ghost d: nat)
      requires Masks() && Holed(slots[..], hash, i, m)
      ensures !found ==> Sound(slots[..], hash)
      ensures found ==> j < slots.Length && d + 1 < slots.Length && Dist(slots.Length, i, j) == d + 1
      ensures found ==> slots[j].used && OnChain(slots[..], hash, j, i) && Scanned(slots[..], hash, i, d)
    {
      var n := slots.Length;
      ghost var s := slots[..];
      j, d := i, 0;
      while true
        invariant j < n && d < n && Dist(n, i, j) == d && Scanned(s, hash, i, d)
        decreases n - d
      {
        MaskedNext(j);
        j := And(j + 1, mask);
        if !slots[j].used {
          HoleIsHarmless(s, hash, i, d, j);
          return false, j, d;
        }
        Masked(hash(slots[j].key));
        var k := And(hash(slots[j].key), mask);
        BlockedMeansOffChain(s, hash, i, j);
        if !Blocked(i, j, k) {
          return true, j, d;
        }
        ScannedStep(s, hash, i, d, j);
        d := d + 1;
      }
    }

    method EraseAt(hole: nat)
      requires Valid() && hole < slots.Length && slots[hole].used
      modifies this, slots
      ensures Valid()
      ensures Contents() == old(Contents()) - {old(slots[hole].key)}
    {
      var i: nat := hole;
      ghost var m := Contents() - {slots[hole].key};
      ghost var s := Freed(slots[..], hole);
      HoledAfterFree(slots[..], hash, hole);
      ContentsAt(slots[..], hole);
      while true
        invariant i < slots.Length && size == |m| + 1
        invariant Freed(slots[..], i) == s && Holed(s, hash, i, m)
        decreases TotalDisplacement(s, hash, |s|)
      {
        slots[i] := slots[i].(used := false);
        assert slots[..] == s;
        var found, j, d := FindMovable(i, m);
        if !found {
          size := size - 1;
          return;
        }
        HoledAfterMove(s, hash, i, d, j, m);
        slots[i] := slots[j];
        s := Freed(s[i := s[j]], j);
        assert Freed(slots[..], j) == s;
        i := j;
      }
    }

    method Clear()
      requires Valid()
      modifies this, slots
      ensures Valid() && Contents() == map[]
    {
      var i := 0;
      while i < slots.Length
        invariant i <= slots.Length
        invariant forall x | 0 <= x < i :: !slots[x].used
        modifies slots
      {
        slots[i] := slots[i].(used := false);
        i := i + 1;
      }
      size := 0;
    }
  }
}
