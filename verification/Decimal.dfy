// Exact decimals: a text is read as an integer scaled by a power of ten, exactly
// or not at all.
module Decimal {
  import opened Types

  const UINT64_MAX: int := 0xFFFF_FFFF_FFFF_FFFF

  predicate IsDigit(c: char) {
    '0' <= c <= '9'
  }

  predicate AllDigits(t: string) {
    forall i | 0 <= i < |t| :: IsDigit(t[i])
  }

  function Digit(c: char): nat
    requires IsDigit(c)
  {
    c as int - '0' as int
  }

  // A run of digits as a number.
  function Number(t: string): nat
    requires AllDigits(t)
  {
    if t == "" then 0 else 10 * Number(t[..|t| - 1]) + Digit(t[|t| - 1])
  }

  // ---- the texts that are decimals ----

  datatype Parts = Parts(sign: string, whole: string, point: bool, fraction: string)

  function Text(p: Parts): string {
    p.sign + (p.whole + (if p.point then "." + p.fraction else ""))
  }

  // An optional sign, digits, an optional point and digits; a digit somewhere.
  predicate WellFormed(p: Parts) {
    && (p.sign == "" || p.sign == "+" || p.sign == "-") && AllDigits(p.whole) && AllDigits(p.fraction)
    && (p.fraction != "" ==> p.point) && |p.whole| + |p.fraction| > 0
  }

  // The fraction digits that fit in the scale.
  function Kept(p: Parts, scale: nat): (k: nat)
    ensures k <= |p.fraction| && k <= scale
  {
    if |p.fraction| <= scale then |p.fraction| else scale
  }

  // The magnitude at that scale.
  function Magnitude(p: Parts, scale: nat): nat
    requires AllDigits(p.whole) && AllDigits(p.fraction)
  {
    Number(p.whole + p.fraction[..Kept(p, scale)]) * Pow10(scale - Kept(p, scale))
  }

  // Nothing significant beyond the scale, and small enough.
  predicate Fits(p: Parts, scale: nat)
    requires AllDigits(p.whole) && AllDigits(p.fraction)
  {
    (forall i | scale <= i < |p.fraction| :: p.fraction[i] == '0') && Magnitude(p, scale) <= INT64_MAX
  }

  function ValueOf(p: Parts, scale: nat): int
    requires AllDigits(p.whole) && AllDigits(p.fraction)
  {
    var m: int := Magnitude(p, scale);
    if p.sign == "-" then -m else m
  }

  // ---- reading a text ----

  function DigitRun(t: string): (n: nat)
    ensures n <= |t| && AllDigits(t[..n]) && (n < |t| ==> !IsDigit(t[n]))
  {
    if t != "" && IsDigit(t[0]) then 1 + DigitRun(t[1..]) else 0
  }

  function SignOf(t: string): (n: nat)
    ensures n <= |t|
  {
    if t != "" && (t[0] == '-' || t[0] == '+') then 1 else 0
  }

  // A text reads in at most one way.
  function Split(t: string): (p: Parts)
    ensures AllDigits(p.whole) && AllDigits(p.fraction)
  {
    var u := t[SignOf(t)..];
    var n := DigitRun(u);
    var point := n < |u| && u[n] == '.';
    var f := if point then u[n + 1..] else "";
    Parts(t[..SignOf(t)], u[..n], point, f[..DigitRun(f)])
  }

  lemma {:induction false} RunThen(d: string, t: string)
    requires AllDigits(d) && (t != "" ==> !IsDigit(t[0]))
    ensures DigitRun(d + t) == |d|
  {
    if d == "" {
      assert d + t == t;
    } else {
      assert (d + t)[1..] == d[1..] + t;
      RunThen(d[1..], t);
    }
  }

  function Unsigned(p: Parts): string {
    p.whole + (if p.point then "." + p.fraction else "")
  }

  lemma SignFirst(p: Parts)
    requires WellFormed(p)
    ensures SignOf(Text(p)) == |p.sign| && Text(p)[|p.sign|..] == Unsigned(p) && Text(p)[..|p.sign|] == p.sign
  {
    var t, u := Text(p), Unsigned(p);
    assert t == p.sign + u;
    if p.sign == "" {
      assert t == u;
      assert u[0] == if p.whole != "" then p.whole[0] else '.';
    }
  }

  lemma SplitsUnsigned(p: Parts)
    requires WellFormed(p)
    ensures var u, n := Unsigned(p), |p.whole|;
            && DigitRun(u) == n && u[..n] == p.whole && (n < |u| && u[n] == '.' <==> p.point)
            && (p.point ==> u[n + 1..] == p.fraction) && DigitRun(p.fraction) == |p.fraction|
  {
    hide DigitRun;
    var tail := if p.point then "." + p.fraction else "";
    RunThen(p.whole, tail);
    assert p.fraction + "" == p.fraction;
    RunThen(p.fraction, "");
  }

  lemma SplitsText(p: Parts)
    requires WellFormed(p)
    ensures Split(Text(p)) == p
  {
    hide DigitRun, SignOf;
    SignFirst(p);
    SplitsUnsigned(p);
    if !p.point {
      assert p.fraction == "" && DigitRun("") == 0;
    }
  }

  // The text is some decimal's exactly when it is its own split's.
  lemma ReadsOnlyAs(t: string, p: Parts)
    requires WellFormed(p) && Text(p) == t
    ensures Split(t) == p
  {
    SplitsText(p);
  }

  // ---- numbers ----

  lemma NumberSnoc(t: string, c: char)
    requires AllDigits(t) && IsDigit(c)
    ensures AllDigits(t + [c]) && Number(t + [c]) == 10 * Number(t) + Digit(c)
  {
    assert (t + [c])[..|t|] == t;
  }

  lemma {:induction false} NumberZeros(t: string, z: string)
    requires AllDigits(t) && forall i | 0 <= i < |z| :: z[i] == '0'
    ensures AllDigits(t + z) && Number(t + z) == Number(t) * Pow10(|z|)
    decreases |z|
  {
    if z == "" {
      assert t + z == t;
    } else {
      var y := z[..|z| - 1];
      NumberZeros(t, y);
      assert t + z == (t + y) + ['0'];
      NumberSnoc(t + y, '0');
      TenTimes(Number(t), Pow10(|y|));
    }
  }

  lemma TenTimes(x: nat, y: nat)
    ensures 10 * (x * y) == x * (10 * y)
  {
  }

  lemma {:induction false} Pow10Add(a: nat, b: nat)
    ensures Pow10(a + b) == Pow10(a) * Pow10(b)
  {
    if a > 0 {
      Pow10Add(a - 1, b);
    }
  }

  // What is returned is exactly the decimal's value times ten to the scale.
  lemma Exact(p: Parts, scale: nat)
    requires WellFormed(p) && Fits(p, scale)
    ensures AllDigits(p.whole + p.fraction)
    ensures Magnitude(p, scale) * Pow10(|p.fraction|) == Number(p.whole + p.fraction) * Pow10(scale)
  {
    hide Number, Pow10;
    var k := Kept(p, scale);
    var kept, lost := p.whole + p.fraction[..k], p.fraction[k..];
    assert p.whole + p.fraction == kept + lost;
    NumberZeros(kept, lost);
    Powers(Number(kept), k, |lost|, scale - k);
  }

  lemma Powers(n: nat, k: nat, l: nat, r: nat)
    ensures (n * Pow10(r)) * Pow10(k + l) == (n * Pow10(l)) * Pow10(k + r)
  {
    hide Pow10;
    Pow10Add(k, l);
    Pow10Add(k, r);
    Regroup(n, Pow10(k), Pow10(l), Pow10(r));
  }

  lemma Regroup(n: nat, x: nat, y: nat, z: nat)
    ensures (n * z) * (x * y) == (n * y) * (x * z)
  {
    var m := n * x;
    assert (n * z) * (x * y) == m * (z * y);
    assert (n * y) * (x * z) == m * (y * z);
  }

  // ---- reading ----

  // One more digit, unless it no longer fits.
  predicate Overflows(v: nat, d: nat, limit: int)
    requires d <= 9
  {
    v > (limit - d) / 10
  }

  lemma OverflowsExactly(v: nat, d: nat, limit: int)
    requires d <= 9 <= limit
    ensures Overflows(v, d, limit) <==> 10 * v + d > limit
  {
  }

  // More digits never make a smaller number.
  lemma {:induction false} NumberGrows(t: string, n: nat)
    requires AllDigits(t) && n <= |t|
    ensures Number(t[..n]) <= Number(t)
    decreases |t|
  {
    if n < |t| {
      assert t[..|t| - 1][..n] == t[..n];
      NumberGrows(t[..|t| - 1], n);
    } else {
      assert t[..n] == t;
    }
  }

  method ParseU64(s: string) returns (r: Option<nat>)
    ensures r.Some? <==> s != "" && AllDigits(s) && Number(s) <= UINT64_MAX
    ensures r.Some? ==> r.value == Number(s)
  {
    if s == "" {
      return None;
    }
    var v: nat := 0;
    for i := 0 to |s|
      invariant AllDigits(s[..i]) && v == Number(s[..i]) <= UINT64_MAX
    {
      if !IsDigit(s[i]) {
        return None;
      }
      var d := Digit(s[i]);
      assert s[..i + 1] == s[..i] + [s[i]];
      NumberSnoc(s[..i], s[i]);
      OverflowsExactly(v, d, UINT64_MAX);
      if Overflows(v, d, UINT64_MAX) {
        if AllDigits(s) {
          NumberGrows(s, i + 1);
        }
        return None;
      }
      v := 10 * v + d;
    }
    assert s[..|s|] == s;
    return Some(v);
  }

  // Where the parts of a text's split lie in it.
  ghost predicate LaidOut(s: string, p: Parts, i0: nat, i1: nat, i2: nat, i3: nat) {
    && i0 == |p.sign| <= i1 == i0 + |p.whole| <= i2 == i1 + (if p.point then 1 else 0) <= i3 == i2 + |p.fraction| <= |s|
    && s[..i0] == p.sign && s[i0..i1] == p.whole && s[i2..i3] == p.fraction
    && (i1 < |s| ==> !IsDigit(s[i1])) && (p.point <==> i1 < |s| && s[i1] == '.')
    && (p.point && i3 < |s| ==> !IsDigit(s[i3])) && (!p.point ==> p.fraction == "")
  }

  lemma Layout(s: string)
    ensures var p := Split(s);
            var i0, i1 := |p.sign|, |p.sign| + |p.whole|;
            var i2 := i1 + if p.point then 1 else 0;
            LaidOut(s, p, i0, i1, i2, i2 + |p.fraction|)
  {
    hide SignOf;
    var p := Split(s);
    var u := s[SignOf(s)..];
    var n := DigitRun(u);
    assert u[..n] == s[|p.sign|..|p.sign| + n];
    if p.point {
      var f := u[n + 1..];
      assert f == s[|p.sign| + n + 1..];
      assert f[..DigitRun(f)] == s[|p.sign| + n + 1..|p.sign| + n + 1 + DigitRun(f)];
    } else {
      assert DigitRun("") == 0;
    }
  }

  lemma TextOf(s: string, p: Parts, i0: nat, i1: nat, i2: nat, i3: nat)
    requires LaidOut(s, p, i0, i1, i2, i3)
    ensures Text(p) == s[..i3]
  {
    assert s[..i1] == s[..i0] + s[i0..i1];
    if p.point {
      assert s[..i2] == s[..i1] + "." && s[..i3] == s[..i2] + s[i2..i3];
      assert (s[..i1] + ".") + p.fraction == s[..i0] + (p.whole + ("." + p.fraction));
    } else {
      assert p.whole + "" == p.whole;
    }
  }

  // The text is a decimal that the scale can hold exactly.
  ghost predicate Accepts(s: string, scale: nat) {
    exists p :: Represents(p, s, scale)
  }

  predicate Represents(p: Parts, s: string, scale: nat) {
    WellFormed(p) && Text(p) == s && Fits(p, scale)
  }

  lemma AcceptsSplit(s: string, scale: nat)
    ensures Accepts(s, scale) <==> Represents(Split(s), s, scale)
    ensures forall p | Represents(p, s, scale) :: p == Split(s)
  {
    hide Split, Text, Fits, WellFormed;
    forall p | Represents(p, s, scale) ensures p == Split(s) {
      ReadsOnlyAs(s, p);
    }
  }

  // Once the digits read make too large a number, no scale of it fits.
  lemma TooLarge(p: Parts, scale: nat, whole: nat, kept: nat, pad: nat)
    requires AllDigits(p.whole) && AllDigits(p.fraction) && whole <= |p.whole| && kept <= Kept(p, scale)
             && pad <= scale - Kept(p, scale)
    requires kept > 0 ==> whole == |p.whole|
    requires pad > 0 ==> whole == |p.whole| && kept == Kept(p, scale)
    requires Number(p.whole[..whole] + p.fraction[..kept]) * Pow10(pad) > INT64_MAX
    ensures !Fits(p, scale)
  {
    var part := p.whole[..whole] + p.fraction[..kept];
    var all := p.whole + p.fraction[..Kept(p, scale)];
    assert part == all[..|part|];
    NumberGrows(all, |part|);
    Grows(Number(part), Number(all), Pow10(pad));
    var rest := scale - Kept(p, scale) - pad;
    Pow10Add(pad, rest);
    Grows3(Number(all), Pow10(pad), Pow10(rest));
  }

  lemma Grows(x: nat, y: nat, z: nat)
    requires x <= y
    ensures x * z <= y * z
  {
  }

  lemma Grows3(x: nat, y: nat, z: nat)
    requires z > 0
    ensures x * y <= x * (y * z)
  {
    assert y <= y * z;
    Grows(y, y * z, x);
  }

  lemma PowOne()
    ensures Pow10(0) == 1
  {
  }

  lemma TooLargeWhole(p: Parts, scale: nat, k: nat)
    requires AllDigits(p.whole) && AllDigits(p.fraction) && k <= |p.whole| && Number(p.whole[..k]) > INT64_MAX
    ensures !Fits(p, scale)
  {
    hide Number, Pow10, Fits;
    assert p.whole[..k] + p.fraction[..0] == p.whole[..k];
    PowOne();
    TooLarge(p, scale, k, 0, 0);
  }

  lemma TooLargeFraction(p: Parts, scale: nat, k: nat)
    requires AllDigits(p.whole) && AllDigits(p.fraction) && k <= Kept(p, scale)
             && Number(p.whole + p.fraction[..k]) > INT64_MAX
    ensures !Fits(p, scale)
  {
    hide Number, Pow10, Fits;
    assert p.whole[..|p.whole|] == p.whole;
    PowOne();
    TooLarge(p, scale, |p.whole|, k, 0);
  }

  // A run of digits in the text, and the same run in the split.
  lemma RunAt(s: string, d: string, from: nat, to: nat, i: nat)
    requires from <= i <= to <= |s| && s[from..to] == d && AllDigits(d) && (to < |s| ==> !IsDigit(s[to]))
    ensures i < |s| && IsDigit(s[i]) <==> i < to
    ensures i < to ==> IsDigit(s[i]) && s[i] == d[i - from] && d[..i + 1 - from] == d[..i - from] + [s[i]]
    ensures i == to ==> d[..i - from] == d
  {
    if i < to {
      assert s[from..to][i - from] == s[i];
    }
  }

  method ReadWhole(s: string, i0: nat, scale: nat, ghost p: Parts, ghost i2: nat, ghost i3: nat)
    returns (ok: bool, i: nat, v: nat, any: bool)
    requires AllDigits(p.whole) && AllDigits(p.fraction) && LaidOut(s, p, i0, i0 + |p.whole|, i2, i3)
    ensures !ok ==> !Fits(p, scale)
    ensures ok ==> i == i0 + |p.whole| && v == Number(p.whole) <= INT64_MAX && (any <==> p.whole != "")
  {
    hide Pow10, Number, Fits, AllDigits, Overflows;
    ghost var to := i0 + |p.whole|;
    i, v, any := i0, 0, false;
    NumberNone();
    RunAt(s, p.whole, i0, to, i);
    while i < |s| && IsDigit(s[i])
      invariant i0 <= i <= to && AllDigits(p.whole[..i - i0]) && v == Number(p.whole[..i - i0]) <= INT64_MAX
                && (any <==> i > i0)
      invariant i < |s| && IsDigit(s[i]) <==> i < to
    {
      var d := Digit(s[i]);
      RunAt(s, p.whole, i0, to, i);
      NumberSnoc(p.whole[..i - i0], s[i]);
      OverflowsExactly(v, d, INT64_MAX);
      if Overflows(v, d, INT64_MAX) {
        TooLargeWhole(p, scale, i + 1 - i0);
        return false, i, v, any;
      }
      v := 10 * v + d;
      any := true;
      i := i + 1;
      RunAt(s, p.whole, i0, to, i);
    }
    RunAt(s, p.whole, i0, to, i);
    return true, i, v, any;
  }

  lemma NumberNone()
    ensures AllDigits("") && Number("") == 0
  {
  }

  // The fraction's digits up to the scale, and only zeros beyond it.
  method ReadFraction(s: string, i2: nat, v0: nat, any0: bool, scale: nat, ghost p: Parts, ghost i0: nat, ghost i1: nat)
    returns (ok: bool, i: nat, v: nat, used: nat, any: bool)
    requires AllDigits(p.whole) && AllDigits(p.fraction) && p.point && LaidOut(s, p, i0, i1, i2, i2 + |p.fraction|)
    requires v0 == Number(p.whole) <= INT64_MAX
    ensures !ok ==> !Fits(p, scale)
    ensures ok ==> i == i2 + |p.fraction| && used == Kept(p, scale) && (any <==> any0 || p.fraction != "")
    ensures ok ==> AllDigits(p.whole + p.fraction[..used]) && v == Number(p.whole + p.fraction[..used]) <= INT64_MAX
    ensures ok ==> forall k | scale <= k < |p.fraction| :: p.fraction[k] == '0'
  {
    hide Pow10, Number, Fits, AllDigits, Overflows;
    ghost var to := i2 + |p.fraction|;
    i, v, used, any := i2, v0, 0, any0;
    assert p.whole + p.fraction[..0] == p.whole;
    RunAt(s, p.fraction, i2, to, i);
    while i < |s| && IsDigit(s[i])
      invariant i2 <= i <= to && (any <==> any0 || i > i2)
      invariant used == if i - i2 <= scale then i - i2 else scale
      invariant AllDigits(p.whole + p.fraction[..used]) && v == Number(p.whole + p.fraction[..used]) <= INT64_MAX
      invariant forall k | scale <= k < i - i2 :: p.fraction[k] == '0'
      invariant i < |s| && IsDigit(s[i]) <==> i < to
    {
      var d := Digit(s[i]);
      RunAt(s, p.fraction, i2, to, i);
      if used < scale {
        assert p.whole + p.fraction[..used + 1] == (p.whole + p.fraction[..used]) + [s[i]];
        NumberSnoc(p.whole + p.fraction[..used], s[i]);
        OverflowsExactly(v, d, INT64_MAX);
        if Overflows(v, d, INT64_MAX) {
          TooLargeFraction(p, scale, used + 1);
          return false, i, v, used, any;
        }
        v := 10 * v + d;
        used := used + 1;
      } else if s[i] != '0' {
        TooPrecise(p, scale, i - i2);
        return false, i, v, used, any;
      }
      any := true;
      i := i + 1;
      RunAt(s, p.fraction, i2, to, i);
    }
    return true, i, v, used, any;
  }

  lemma TooPrecise(p: Parts, scale: nat, k: nat)
    requires AllDigits(p.whole) && AllDigits(p.fraction) && scale <= k < |p.fraction| && p.fraction[k] != '0'
    ensures !Fits(p, scale)
  {
  }

  // Scale up to the digits asked for.
  method Pad(v0: nat, used: nat, scale: nat, ghost p: Parts) returns (ok: bool, v: nat)
    requires AllDigits(p.whole) && AllDigits(p.fraction) && used == Kept(p, scale)
    requires v0 == Number(p.whole + p.fraction[..used]) <= INT64_MAX
    ensures !ok ==> !Fits(p, scale)
    ensures ok ==> v == Magnitude(p, scale) <= INT64_MAX
  {
    hide Number, Fits;
    v := v0;
    for u := used to scale
      invariant v == v0 * Pow10(u - used) <= INT64_MAX
    {
      TenTimes(v0, Pow10(u - used));
      OverflowsExactly(v, 0, INT64_MAX);
      if v > INT64_MAX / 10 {
        assert p.whole[..|p.whole|] == p.whole;
        TooLarge(p, scale, |p.whole|, used, u + 1 - used);
        return false, v;
      }
      v := v * 10;
    }
    return true, v;
  }

  lemma EmptyIsNone(s: string, scale: nat)
    requires s == ""
    ensures !Represents(Split(s), s, scale)
  {
  }

  lemma SplitSign(s: string)
    requires s != ""
    ensures Split(s).sign == if s[0] == '-' then "-" else if s[0] == '+' then "+" else ""
  {
    hide DigitRun;
    assert s[..1] == [s[0]];
  }

  lemma PointAt(s: string, p: Parts, i0: nat, i1: nat, i2: nat, i3: nat)
    requires LaidOut(s, p, i0, i1, i2, i3)
    ensures i1 < |s| && s[i1] == '.' <==> p.point
    ensures !p.point ==> p.fraction == "" && i3 == i1 && p.whole + p.fraction[..0] == p.whole
    ensures p.point ==> i2 == i1 + 1
    ensures i1 <= |s| && i3 <= |s|
  {
  }

  lemma Finished(s: string, p: Parts, i: nat, any: bool)
    requires p == Split(s) && i <= |s| && Text(p) == s[..i] && (p.fraction != "" ==> p.point)
    requires any <==> p.whole != "" || p.fraction != ""
    ensures WellFormed(p) && Text(p) == s <==> i == |s| && any
  {
    hide DigitRun, Text, AllDigits;
    if s != "" {
      SplitSign(s);
    }
    if i == |s| {
      assert s[..i] == s;
    }
  }

  lemma FitsIs(p: Parts, scale: nat)
    requires AllDigits(p.whole) && AllDigits(p.fraction) && Magnitude(p, scale) <= INT64_MAX
    requires forall k | scale <= k < |p.fraction| :: p.fraction[k] == '0'
    ensures Fits(p, scale)
  {
  }

  // Exact or nothing: succeeds exactly on the texts of decimals the scale can hold
  // and 64 bits can represent, with exactly that value.
  method ParseDecimal(s: string, scale: nat) returns (r: Option<int>)
    ensures r.Some? <==> scale <= 18 && Accepts(s, scale)
    ensures r.Some? ==> exists p :: Represents(p, s, scale) && r.value == ValueOf(p, scale)
  {
    hide Split, Fits, Number, Pow10, WellFormed, Text, Magnitude, LaidOut;
    ghost var p := Split(s);
    AcceptsSplit(s, scale);
    if s == "" || scale > 18 {
      if s == "" {
        EmptyIsNone(s, scale);
      }
      return None;
    }
    var i0, neg := 0, false;
    if s[0] == '-' {
      neg, i0 := true, 1;
    } else if s[0] == '+' {
      i0 := 1;
    }
    Layout(s);
    SplitSign(s);
    ghost var i1, i2 := |p.sign| + |p.whole|, |p.sign| + |p.whole| + (if p.point then 1 else 0);
    var ok, i, v, any := ReadWhole(s, i0, scale, p, i2, i2 + |p.fraction|);
    if !ok {
      return None;
    }
    PointAt(s, p, i0, i1, i2, i2 + |p.fraction|);
    var used := 0;
    if i < |s| && s[i] == '.' {
      ok, i, v, used, any := ReadFraction(s, i + 1, v, any, scale, p, i0, i1);
      if !ok {
        return None;
      }
    }
    TextOf(s, p, i0, i1, i2, i2 + |p.fraction|);
    Finished(s, p, i, any);
    if i != |s| || !any {
      return None;
    }
    ok, v := Pad(v, used, scale, p);
    if !ok {
      return None;
    }
    FitsIs(p, scale);
    var m: int := v;
    return Some(if neg then -m else m);
  }

  // What a text reads as, if it reads as anything.
  function DecimalOf(s: string, scale: nat): Option<int> {
    if scale <= 18 && Represents(Split(s), s, scale) then Some(ValueOf(Split(s), scale)) else None
  }

  lemma DecimalOfIs(s: string, scale: nat, r: Option<int>)
    requires r.Some? <==> scale <= 18 && Accepts(s, scale)
    requires r.Some? ==> exists p :: Represents(p, s, scale) && r.value == ValueOf(p, scale)
    ensures r == DecimalOf(s, scale)
  {
    hide Split, Represents, ValueOf;
    AcceptsSplit(s, scale);
  }

  function U64Of(s: string): Option<nat> {
    if s != "" && AllDigits(s) && Number(s) <= UINT64_MAX then Some(Number(s)) else None
  }

  // ---- printing ----

  function DigitChar(d: nat): (c: char)
    requires d <= 9
    ensures IsDigit(c) && Digit(c) == d
  {
    ('0' as int + d) as char
  }

  function Digits(n: nat): (t: string)
    ensures t != "" && AllDigits(t)
  {
    if n < 10 then [DigitChar(n)] else Digits(n / 10) + [DigitChar(n % 10)]
  }

  // The last k digits of n, and what is above them.
  function LastDigits(n: nat, k: nat): (t: string)
    ensures |t| == k && AllDigits(t)
  {
    if k == 0 then "" else LastDigits(n / 10, k - 1) + [DigitChar(n % 10)]
  }

  function Above(n: nat, k: nat): nat {
    if k == 0 then n else Above(n / 10, k - 1)
  }

  lemma {:induction false} NumberOfDigits(n: nat)
    ensures Number(Digits(n)) == n
  {
    if n < 10 {
      NumberSnoc("", DigitChar(n));
      assert "" + [DigitChar(n)] == [DigitChar(n)];
      NumberNone();
    } else {
      NumberOfDigits(n / 10);
      NumberSnoc(Digits(n / 10), DigitChar(n % 10));
    }
  }

  lemma {:induction false} NumberOfBoth(n: nat, k: nat)
    ensures AllDigits(Digits(Above(n, k)) + LastDigits(n, k)) && Number(Digits(Above(n, k)) + LastDigits(n, k)) == n
    decreases k
  {
    if k == 0 {
      assert Digits(n) + "" == Digits(n);
      NumberOfDigits(n);
    } else {
      NumberOfBoth(n / 10, k - 1);
      var front := Digits(Above(n, k)) + LastDigits(n / 10, k - 1);
      assert Digits(Above(n, k)) + LastDigits(n, k) == front + [DigitChar(n % 10)];
      NumberSnoc(front, DigitChar(n % 10));
    }
  }

  // A scaled integer, with all the fraction digits its scale has.
  function Printed(v: int, scale: nat): Parts {
    var n := if v < 0 then -v else v;
    Parts(if v < 0 then "-" else "", Digits(Above(n, scale)), scale > 0, LastDigits(n, scale))
  }

  // Printing a scaled integer and reading it back returns it.
  lemma PrintedReads(v: int, scale: nat)
    requires -(INT64_MAX as int) <= v <= INT64_MAX
    ensures Accepts(Text(Printed(v, scale)), scale)
    ensures forall p | Represents(p, Text(Printed(v, scale)), scale) :: ValueOf(p, scale) == v
  {
    hide Split, Number, Digits, LastDigits, Text;
    var n := if v < 0 then -v else v;
    var p := Printed(v, scale);
    NumberOfBoth(n, scale);
    PowOne();
    assert p.fraction[..scale] == p.fraction;
    assert Magnitude(p, scale) == n;
    assert Represents(p, Text(p), scale);
    AcceptsSplit(Text(p), scale);
  }
}
