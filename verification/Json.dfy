// The JSON scanner: cursors moved along a text, one loop each. Total on any text;
// every range returned lies inside it.
module Json {
  import opened Types
  import opened JsonSpec

  lemma Ahead(s: string, i: nat)
    requires i < |s|
    ensures s[i..] != "" && s[i..][0] == s[i] && s[i..][1..] == s[i + 1..] && |s[i..]| == |s| - i
  {
  }

  method SkipWs(s: string, i: nat) returns (j: nat)
    requires i <= |s|
    ensures i <= j <= |s| && s[j..] == AfterWs(s[i..])
  {
    j := i;
    while j < |s| && IsWs(s[j])
      invariant i <= j <= |s| && AfterWs(s[j..]) == AfterWs(s[i..])
    {
      Ahead(s, j);
      j := j + 1;
    }
    if j < |s| {
      Ahead(s, j);
    }
  }

  // From the opening quote past the closing one.
  method SkipString(s: string, i: nat) returns (ok: bool, j: nat)
    requires i <= |s|
    ensures i <= j <= |s| && (ok <==> AfterString(s[i..]).Some?)
    ensures ok ==> i < j && s[j..] == AfterString(s[i..]).value
  {
    hide LeftOf;
    j := i;
    if j >= |s| || s[j] != '"' {
      return false, j;
    }
    Ahead(s, j);
    j := j + 1;
    while j < |s|
      invariant i < j <= |s| && AfterBody(s[j..]) == AfterString(s[i..])
    {
      var c := s[j];
      Ahead(s, j);
      if c == '\\' {
        if j + 1 >= |s| {
          return false, j;
        }
        assert s[j..][2..] == s[j + 2..];
        j := j + 2;
        continue;
      }
      j := j + 1;
      if c == '"' {
        return true, j;
      }
    }
    return false, j;
  }

  // From an opening bracket past the one that closes it; a counter, no recursion.
  method SkipNest(s: string, i: nat) returns (ok: bool, j: nat)
    requires i <= |s|
    ensures i <= j <= |s| && (ok <==> AfterNest(s[i..], 0).Some?)
    ensures ok ==> i < j && s[j..] == AfterNest(s[i..], 0).value
  {
    hide AfterString, LeftOf;
    j := i;
    var depth: nat := 0;
    while j < |s|
      invariant i <= j <= |s| && AfterNest(s[j..], depth) == AfterNest(s[i..], 0)
    {
      var c := s[j];
      Ahead(s, j);
      if c == '"' {
        var good;
        good, j := SkipString(s, j);
        if !good {
          return false, j;
        }
        continue;
      }
      if IsOpen(c) {
        depth := depth + 1;
      } else if IsClose(c) {
        if depth == 0 {
          return false, j;
        }
        depth := depth - 1;
        j := j + 1;
        if depth == 0 {
          return true, j;
        }
        continue;
      }
      j := j + 1;
    }
    return false, j;
  }

  // A number, true, false or null: everything before whitespace, a comma or a
  // closing bracket.
  method SkipAtom(s: string, i: nat) returns (j: nat)
    requires i <= |s|
    ensures i <= j <= |s| && s[j..] == AfterAtom(s[i..])
  {
    j := i;
    while j < |s| && s[j] != ',' && s[j] != '}' && s[j] != ']' && !IsWs(s[j])
      invariant i <= j <= |s| && AfterAtom(s[j..]) == AfterAtom(s[i..])
    {
      Ahead(s, j);
      j := j + 1;
    }
    if j < |s| {
      Ahead(s, j);
    }
  }

  // Past exactly one value of any type, and the whitespace before it.
  method SkipValue(s: string, i: nat) returns (ok: bool, j: nat)
    requires i <= |s|
    ensures i <= j <= |s| && (ok <==> AfterValue(s[i..]).Some?)
    ensures ok ==> i < j && s[j..] == AfterValue(s[i..]).value
  {
    hide AfterString, AfterNest, AfterWs, AfterAtom, LeftOf;
    j := SkipWs(s, i);
    if j >= |s| {
      return false, j;
    }
    Ahead(s, j);
    if s[j] == '"' {
      ok, j := SkipString(s, j);
    } else if IsOpen(s[j]) {
      ok, j := SkipNest(s, j);
    } else {
      var start := j;
      j := SkipAtom(s, start);
      ok := j > start;
    }
  }

  // ---- lookup ----

  // One member from its opening quote: whether it makes sense, where its value is,
  // and where it ends.
  method Member(s: string, i: nat) returns (ok: bool, key: string, from: nat, to: nat)
    requires i < |s|
    ensures ok <==> ScanMember(s[i..]).Some?
    ensures ok ==> i < from <= to <= |s| && ScanMember(s[i..]).value == Scanned(key, s[from..to], s[to..])
  {
    hide AfterString, AfterWs, AfterValue, LeftOf;
    key, from, to := "", i, i;
    var j;
    ok, j := SkipString(s, i);
    if !ok {
      return;
    }
    QuotedAt(s, i, j);
    key := s[i + 1..j - 1];
    var w := SkipWs(s, j);
    if w >= |s| || s[w] != ':' {
      ok := false;
      return;
    }
    Ahead(s, w);
    from := SkipWs(s, w + 1);
    ok, to := SkipValue(s, from);
    if ok {
      RangeAt(s, from, to);
    }
  }

  // A literal is at least its two quotes.
  lemma QuotedAt(s: string, i: nat, j: nat)
    requires i <= j <= |s| && AfterString(s[i..]) == Some(s[j..])
    ensures i + 2 <= j && s[i..][1..|s[i..]| - |s[j..]| - 1] == s[i + 1..j - 1]
  {
  }

  lemma RangeAt(s: string, from: nat, to: nat)
    requires from <= to <= |s|
    ensures s[from..][..|s[from..]| - |s[to..]|] == s[from..to]
  {
  }

  // The range of s that holds the value of the object's own member with that key;
  // an empty range if there is no such member, or the text is no object.
  method Find(s: string, key: string) returns (from: nat, to: nat)
    ensures from <= to <= |s| && s[from..to] == Lookup(s, key)
  {
    hide AfterWs, ScanMember;
    var i := SkipWs(s, 0);
    assert s[0..] == s;
    if i >= |s| || s[i] != '{' {
      return 0, 0;
    }
    Ahead(s, i);
    i := i + 1;
    while true
      invariant i <= |s| && FindMember(s[i..], key) == Lookup(s, key)
      decreases |s| - i
    {
      i := SkipWs(s, i);
      if i >= |s| || s[i] == '}' {
        return 0, 0;
      }
      Ahead(s, i);
      if s[i] == ',' {
        i := i + 1;
        continue;
      }
      var ok, k;
      ok, k, from, to := Member(s, i);
      if !ok {
        return 0, 0;
      }
      if k == key {
        return;
      }
      i := to;
    }
  }

  method FindScalar(s: string, key: string) returns (from: nat, to: nat)
    ensures from <= to <= |s| && s[from..to] == Unquoted(Lookup(s, key))
  {
    hide Lookup, Unquoted;
    from, to := Find(s, key);
    UnquotedRange(s, from, to);
    if to - from >= 2 && s[from] == '"' && s[to - 1] == '"' {
      from, to := from + 1, to - 1;
    }
  }

  lemma UnquotedRange(s: string, from: nat, to: nat)
    requires from <= to <= |s|
    ensures Unquoted(s[from..to])
            == if to - from >= 2 && s[from] == '"' && s[to - 1] == '"' then s[from + 1..to - 1] else s[from..to]
  {
    var v := s[from..to];
    if |v| >= 2 {
      assert v[0] == s[from] && v[|v| - 1] == s[to - 1];
      var inner, direct := v[1..|v| - 1], s[from + 1..to - 1];
      assert |inner| == |direct|;
      forall k | 0 <= k < |direct| ensures inner[k] == direct[k] {
        assert inner[k] == v[1 + k] && v[1 + k] == s[from + (1 + k)] && direct[k] == s[from + 1 + k];
      }
      assert inner == direct;
    }
  }

  // ---- arrays ----

  // The next element of the array text, from cursor i, which starts at zero.
  method ArrayNext(arr: string, i: nat) returns (ok: bool, j: nat, from: nat, to: nat)
    requires i <= |arr|
    ensures i <= j <= |arr| && (ok <==> NextElement(arr[i..], i == 0).Some?)
    ensures ok ==> i < j && from <= to <= |arr| && NextElement(arr[i..], i == 0).value == Taken(arr[from..to], arr[j..])
  {
    hide AfterWs, AfterComma, AfterValue, LeftOf, NextFrom;
    j, from, to := i, 0, 0;
    if i == 0 {
      j := SkipWs(arr, j);
      if j >= |arr| || arr[j] != '[' {
        return false, j, 0, 0;
      }
      Ahead(arr, j);
      j := j + 1;
    }
    ok, j, from, to := NextAt(arr, j);
  }

  method NextAt(arr: string, i: nat) returns (ok: bool, j: nat, from: nat, to: nat)
    requires i <= |arr|
    ensures i <= j <= |arr| && (ok <==> NextFrom(arr[i..]).Some?)
    ensures ok ==> i < j && from <= to <= |arr| && NextFrom(arr[i..]).value == Taken(arr[from..to], arr[j..])
  {
    hide AfterWs, AfterValue, LeftOf, Unquoted;
    from, to := 0, 0;
    j := SkipWs(arr, i);
    if j >= |arr| || arr[j] == ']' {
      return false, j, 0, 0;
    }
    Ahead(arr, j);
    if arr[j] == ',' {
      j := SkipWs(arr, j + 1);
    }
    if j >= |arr| || arr[j] == ']' {
      return false, j, 0, 0;
    }
    Ahead(arr, j);
    from := j;
    ok, j := SkipValue(arr, from);
    if !ok {
      return;
    }
    to := j;
    RangeAt(arr, from, to);
    UnquotedRange(arr, from, to);
    if to - from >= 2 && arr[from] == '"' && arr[to - 1] == '"' {
      from, to := from + 1, to - 1;
    }
  }

  // Iterating the whole array, as a caller does.
  method AllElements(arr: string) returns (texts: seq<string>)
    ensures texts == Elements(arr)
  {
    hide NextElement, NextFrom;
    texts := [];
    assert arr[0..] == arr;
    var ok, i, from, to := ArrayNext(arr, 0);
    if !ok {
      return;
    }
    texts := [arr[from..to]];
    while true
      invariant 0 < i <= |arr| && texts + Iterated(arr[i..]) == Elements(arr)
      decreases |arr| - i
    {
      ghost var before := texts;
      NotFirst(arr, i);
      var at := i;
      ok, i, from, to := ArrayNext(arr, at);
      if !ok {
        return;
      }
      texts := texts + [arr[from..to]];
      assert before + ([arr[from..to]] + Iterated(arr[i..])) == texts + Iterated(arr[i..]);
    }
  }

  lemma NotFirst(arr: string, i: nat)
    requires i <= |arr|
    ensures NextElement(arr[i..], false) == NextFrom(arr[i..])
  {
  }
}
