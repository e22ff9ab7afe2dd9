// What the JSON scanner computes, as functions of the text still to be read, and
// that on any text printed by the grammar of RFC 8259 (sections 2 to 7) it finds
// exactly the values that were printed.
module JsonSpec {
  import opened Types

  predicate IsWs(c: char) {
    c == ' ' || c == '\t' || c == '\n' || c == '\r'
  }

  predicate IsOpen(c: char) {
    c == '{' || c == '['
  }

  predicate IsClose(c: char) {
    c == '}' || c == ']'
  }

  // Where a number or literal ends.
  predicate IsStop(c: char) {
    c == ',' || IsClose(c) || IsWs(c)
  }

  // r is what is left of t.
  predicate LeftOf(t: string, r: string) {
    |r| <= |t| && t[|t| - |r|..] == r
  }

  lemma LeftOfTail(t: string, r: string)
    requires t != "" && LeftOf(t[1..], r)
    ensures LeftOf(t, r)
  {
    assert t[1..][|t| - 1 - |r|..] == t[|t| - |r|..];
  }

  function AfterWs(t: string): (r: string)
    ensures LeftOf(t, r) && (r != "" ==> !IsWs(r[0]))
  {
    if t != "" && IsWs(t[0]) then
      LeftOfTail(t, AfterWs(t[1..]));
      AfterWs(t[1..])
    else t
  }

  // The rest of a string literal, from inside its opening quote.
  function AfterBody(t: string): (r: Option<string>)
    ensures r.Some? ==> LeftOf(t, r.value) && |r.value| < |t|
  {
    if t == "" then None
    else if t[0] == '\\' then (if |t| < 2 then None else AfterBody(t[2..]))
    else if t[0] == '"' then Some(t[1..])
    else AfterBody(t[1..])
  }

  function AfterString(t: string): (r: Option<string>)
    ensures r.Some? ==> LeftOf(t, r.value) && |r.value| + 2 <= |t|
  {
    if t == "" || t[0] != '"' then None else AfterBody(t[1..])
  }

  // Brackets of either kind are counted, not matched.
  function AfterNest(t: string, depth: nat): (r: Option<string>)
    ensures r.Some? ==> LeftOf(t, r.value) && |r.value| < |t|
    decreases |t|
  {
    if t == "" then None
    else if t[0] == '"' then
      match AfterString(t)
      case None => None
      case Some(u) => AfterNest(u, depth)
    else if IsOpen(t[0]) then AfterNest(t[1..], depth + 1)
    else if IsClose(t[0]) then
      (if depth == 0 then None else if depth == 1 then Some(t[1..]) else AfterNest(t[1..], depth - 1))
    else AfterNest(t[1..], depth)
  }

  function AfterAtom(t: string): (r: string)
    ensures LeftOf(t, r)
  {
    if t == "" || IsStop(t[0]) then t else AfterAtom(t[1..])
  }

  function AfterValue(t: string): (r: Option<string>)
    ensures r.Some? ==> LeftOf(t, r.value) && |r.value| < |t|
  {
    var u := AfterWs(t);
    if u == "" then None
    else if u[0] == '"' then AfterString(u)
    else if IsOpen(u[0]) then AfterNest(u, 0)
    else
      var r := AfterAtom(u);
      if |r| == |u| then None else Some(r)
  }

  datatype Scanned = Scanned(key: string, value: string, rest: string)

  // One member, from its opening quote: its raw key, its raw value, what is left.
  function ScanMember(u: string): (r: Option<Scanned>)
    ensures r.Some? ==> |r.value.rest| < |u|
  {
    match AfterString(u)
    case None => None
    case Some(a) =>
      var w := AfterWs(a);
      if w == "" || w[0] != ':' then None
      else
        var val := AfterWs(w[1..]);
        match AfterValue(val)
        case None => None
        case Some(rest) => Some(Scanned(u[1..|u| - |a| - 1], val[..|val| - |rest|], rest))
  }

  // The first of this object's own members with that raw key, from inside its
  // opening brace; nothing if the text stops making sense before one is found.
  function FindMember(t: string, key: string): string
    decreases |t|
  {
    var u := AfterWs(t);
    if u == "" || u[0] == '}' then ""
    else if u[0] == ',' then FindMember(u[1..], key)
    else
      match ScanMember(u)
      case None => ""
      case Some(m) => if m.key == key then m.value else FindMember(m.rest, key)
  }

  function Lookup(s: string, key: string): string {
    var u := AfterWs(s);
    if u == "" || u[0] != '{' then "" else FindMember(u[1..], key)
  }

  // A string without its quotes; anything else as it is.
  function Unquoted(v: string): string {
    if |v| >= 2 && v[0] == '"' && v[|v| - 1] == '"' then v[1..|v| - 1] else v
  }

  // ---- printed text ----

  // Concrete syntax: whitespace is kept where the grammar allows it.
  datatype Value =
    | Str(raw: string)
    | Atom(text: string)
    | Arr(ws: string, elems: Elems)
    | Obj(ws: string, members: Members)

  datatype Elems = NoElems | Elem(pre: string, v: Value, post: string, rest: Elems)

  datatype Members =
    | NoMembers
    | Member(pre: string, key: string, postKey: string, preValue: string, v: Value, post: string, rest: Members)

  function Quoted(raw: string): string {
    "\"" + raw + "\""
  }

  function Print(v: Value): string {
    match v
    case Str(raw) => Quoted(raw)
    case Atom(text) => text
    case Arr(ws, elems) => "[" + (ws + (PrintElems(elems) + "]"))
    case Obj(ws, members) => "{" + (ws + (PrintMembers(members) + "}"))
  }

  function PrintElems(es: Elems): string {
    match es
    case NoElems => ""
    case Elem(pre, v, post, rest) => pre + (Print(v) + (post + (if rest.NoElems? then "" else "," + PrintElems(rest))))
  }

  function PrintMembers(ms: Members): string
    decreases ms, 0
  {
    match ms
    case NoMembers => ""
    case Member(pre, key, postKey, preValue, v, post, rest) =>
      pre + (Quoted(key) + (postKey + (":" + (preValue + (Print(v) + (post + PrintMoreMembers(rest)))))))
  }

  function PrintMoreMembers(ms: Members): string
    decreases ms, 1
  {
    if ms.NoMembers? then "" else "," + PrintMembers(ms)
  }

  predicate AllWs(t: string) {
    forall i | 0 <= i < |t| :: IsWs(t[i])
  }

  // No bare quote, and every backslash escapes something.
  predicate BodyOk(raw: string) {
    raw == ""
    || (raw[0] == '\\' && |raw| >= 2 && BodyOk(raw[2..]))
    || (raw[0] != '\\' && raw[0] != '"' && BodyOk(raw[1..]))
  }

  predicate IsPlain(c: char) {
    c != '"' && !IsOpen(c) && !IsClose(c)
  }

  // Numbers, true, false and null.
  predicate AtomOk(text: string) {
    text != "" && forall i | 0 <= i < |text| :: !IsStop(text[i]) && IsPlain(text[i])
  }

  predicate Ok(v: Value) {
    match v
    case Str(raw) => BodyOk(raw)
    case Atom(text) => AtomOk(text)
    case Arr(ws, elems) => AllWs(ws) && ElemsOk(elems)
    case Obj(ws, members) => AllWs(ws) && MembersOk(members)
  }

  predicate ElemsOk(es: Elems) {
    match es
    case NoElems => true
    case Elem(pre, v, post, rest) => AllWs(pre) && AllWs(post) && Ok(v) && ElemsOk(rest)
  }

  predicate MembersOk(ms: Members) {
    match ms
    case NoMembers => true
    case Member(pre, key, postKey, preValue, v, post, rest) =>
      AllWs(pre) && AllWs(postKey) && AllWs(preValue) && AllWs(post) && BodyOk(key) && Ok(v) && MembersOk(rest)
  }

  // ---- scanning printed text ----

  lemma {:induction false} SkipsWs(w: string, t: string)
    requires AllWs(w)
    ensures AfterWs(w + t) == AfterWs(t)
  {
    if w == "" {
      assert w + t == t;
    } else {
      assert (w + t)[1..] == w[1..] + t;
      SkipsWs(w[1..], t);
    }
  }

  lemma {:induction false} SkipsBody(raw: string, t: string)
    requires BodyOk(raw)
    ensures AfterBody(raw + ("\"" + t)) == Some(t)
  {
    var u := raw + ("\"" + t);
    if raw == "" {
      assert u == "\"" + t && u[1..] == t;
    } else if raw[0] == '\\' {
      assert u[2..] == raw[2..] + ("\"" + t);
      SkipsBody(raw[2..], t);
    } else {
      assert u[1..] == raw[1..] + ("\"" + t);
      SkipsBody(raw[1..], t);
    }
  }

  lemma SkipsString(raw: string, t: string)
    requires BodyOk(raw)
    ensures AfterString(Quoted(raw) + t) == Some(t)
  {
    hide AfterBody, LeftOf;
    assert (Quoted(raw) + t)[1..] == raw + ("\"" + t);
    SkipsBody(raw, t);
  }

  lemma {:induction false} SkipsAtom(text: string, t: string)
    requires forall i | 0 <= i < |text| :: !IsStop(text[i])
    requires t == "" || IsStop(t[0])
    ensures AfterAtom(text + t) == t
  {
    if text == "" {
      assert text + t == t;
    } else {
      assert (text + t)[1..] == text[1..] + t;
      SkipsAtom(text[1..], t);
    }
  }

  // Plain text inside a structure does not change its depth.
  lemma {:induction false} NestPlain(w: string, t: string, depth: nat)
    requires forall i | 0 <= i < |w| :: IsPlain(w[i])
    ensures AfterNest(w + t, depth) == AfterNest(t, depth)
  {
    if w == "" {
      assert w + t == t;
    } else {
      assert (w + t)[1..] == w[1..] + t;
      NestPlain(w[1..], t, depth);
    }
  }

  lemma NestString(raw: string, t: string, depth: nat)
    requires BodyOk(raw)
    ensures AfterNest(Quoted(raw) + t, depth) == AfterNest(t, depth)
  {
    SkipsString(raw, t);
  }

  lemma NestOpen(c: char, t: string, depth: nat)
    requires IsOpen(c)
    ensures AfterNest([c] + t, depth) == AfterNest(t, depth + 1)
  {
    assert ([c] + t)[1..] == t;
  }

  lemma NestClose(c: char, t: string, depth: nat)
    requires IsClose(c) && depth > 0
    ensures AfterNest([c] + t, depth) == if depth == 1 then Some(t) else AfterNest(t, depth - 1)
  {
    assert ([c] + t)[1..] == t;
  }

  // A whole value inside a structure leaves its depth as it was.
  lemma {:induction false} NestValue(v: Value, t: string, depth: nat)
    requires Ok(v) && depth > 0
    ensures AfterNest(Print(v) + t, depth) == AfterNest(t, depth)
    decreases v
  {
    hide AfterNest;
    match v
    case Str(raw) => NestString(raw, t, depth);
    case Atom(text) => NestPlain(text, t, depth);
    case Arr(ws, elems) =>
      NestArr(ws, elems, t, depth);
    case Obj(ws, members) =>
      NestObj(ws, members, t, depth);
  }

  lemma {:induction false} NestArr(ws: string, elems: Elems, t: string, depth: nat)
    requires AllWs(ws) && ElemsOk(elems)
    ensures AfterNest(Print(Arr(ws, elems)) + t, depth) == if depth == 0 then Some(t) else AfterNest(t, depth)
    decreases elems, 1
  {
    hide AfterNest;
    var inner := PrintElems(elems) + ("]" + t);
    assert Print(Arr(ws, elems)) + t == "[" + (ws + inner);
    NestOpen('[', ws + inner, depth);
    NestPlain(ws, inner, depth + 1);
    NestElems(elems, "]" + t, depth + 1);
    NestClose(']', t, depth + 1);
  }

  lemma {:induction false} NestObj(ws: string, members: Members, t: string, depth: nat)
    requires AllWs(ws) && MembersOk(members)
    ensures AfterNest(Print(Obj(ws, members)) + t, depth) == if depth == 0 then Some(t) else AfterNest(t, depth)
    decreases members, 1
  {
    hide AfterNest;
    var inner := PrintMembers(members) + ("}" + t);
    assert Print(Obj(ws, members)) + t == "{" + (ws + inner);
    NestOpen('{', ws + inner, depth);
    NestPlain(ws, inner, depth + 1);
    NestMembers(members, "}" + t, depth + 1);
    NestClose('}', t, depth + 1);
  }

  lemma {:induction false} NestElems(es: Elems, t: string, depth: nat)
    requires ElemsOk(es) && depth > 0
    ensures AfterNest(PrintElems(es) + t, depth) == AfterNest(t, depth)
    decreases es, 0
  {
    hide AfterNest, Print;
    match es
    case NoElems => assert PrintElems(es) + t == t;
    case Elem(pre, v, post, rest) =>
      var more := if rest.NoElems? then "" else "," + PrintElems(rest);
      var t3 := more + t;
      var t2 := post + t3;
      var t1 := Print(v) + t2;
      assert PrintElems(es) + t == pre + t1;
      NestPlain(pre, t1, depth);
      NestValue(v, t2, depth);
      NestPlain(post, t3, depth);
      if rest.Elem? {
        assert t3 == "," + (PrintElems(rest) + t);
        NestPlain(",", PrintElems(rest) + t, depth);
        NestElems(rest, t, depth);
      } else {
        assert t3 == t;
      }
  }

  lemma {:induction false} NestMembers(ms: Members, t: string, depth: nat)
    requires MembersOk(ms) && depth > 0
    ensures AfterNest(PrintMembers(ms) + t, depth) == AfterNest(t, depth)
    decreases ms, 0
  {
    hide AfterNest, Print, PrintMoreMembers;
    match ms
    case NoMembers => assert PrintMembers(ms) + t == t;
    case Member(pre, key, postKey, preValue, v, post, rest) =>
      var t6 := PrintMoreMembers(rest) + t;
      var t5 := post + t6;
      var t4 := Print(v) + t5;
      var t3 := preValue + t4;
      var t2 := postKey + (":" + t3);
      var t1 := Quoted(key) + t2;
      assert PrintMembers(ms) + t == pre + t1;
      NestPlain(pre, t1, depth);
      NestString(key, t2, depth);
      NestPlain(postKey, ":" + t3, depth);
      NestPlain(":", t3, depth);
      NestPlain(preValue, t4, depth);
      NestValue(v, t5, depth);
      NestPlain(post, t6, depth);
      NestMore(rest, t, depth);
  }

  lemma {:induction false} NestMore(ms: Members, t: string, depth: nat)
    requires MembersOk(ms) && depth > 0
    ensures AfterNest(PrintMoreMembers(ms) + t, depth) == AfterNest(t, depth)
    decreases ms, 1
  {
    hide AfterNest;
    if ms.NoMembers? {
      assert PrintMoreMembers(ms) + t == t;
    } else {
      assert PrintMoreMembers(ms) + t == "," + (PrintMembers(ms) + t);
      NestPlain(",", PrintMembers(ms) + t, depth);
      NestMembers(ms, t, depth);
    }
  }

  // ---- whole values, members and elements ----

  // Text that ends a number or a literal.
  predicate Ends(t: string) {
    t == "" || IsStop(t[0])
  }

  lemma PrintHead(v: Value)
    requires Ok(v)
    ensures Print(v) != "" && !IsWs(Print(v)[0]) && (v.Atom? ==> !IsOpen(Print(v)[0]) && Print(v)[0] != '"')
    ensures Print(v)[0] != ',' && Print(v)[0] != ']'
    ensures v.Str? ==> Print(v)[0] == '"'
    ensures v.Arr? ==> Print(v)[0] == '['
    ensures v.Obj? ==> Print(v)[0] == '{'
  {
  }

  // The scanner passes over exactly the value that was printed.
  lemma SkipsValue(v: Value, t: string)
    requires Ok(v) && (v.Atom? ==> Ends(t))
    ensures AfterValue(Print(v) + t) == Some(t)
  {
    hide AfterNest, AfterAtom, AfterString, Print;
    PrintHead(v);
    var u := Print(v) + t;
    assert u[0] == Print(v)[0];
    NoWsAhead(u);
    match v
    case Str(raw) =>
      PrintStr(raw);
      SkipsString(raw, t);
    case Atom(text) =>
      PrintAtom(text);
      SkipsAtom(text, t);
    case Arr(ws, elems) => NestArr(ws, elems, t, 0);
    case Obj(ws, members) => NestObj(ws, members, t, 0);
  }

  lemma PrintStr(raw: string)
    ensures Print(Str(raw)) == Quoted(raw)
  {
  }

  lemma PrintAtom(text: string)
    ensures Print(Atom(text)) == text
  {
  }

  lemma NoWsAhead(u: string)
    requires u != "" && !IsWs(u[0])
    ensures AfterWs(u) == u
  {
  }

  // The value of the first member with that raw key.
  function FirstMatch(ms: Members, key: string): string {
    if ms.NoMembers? then "" else if ms.key == key then Print(ms.v) else FirstMatch(ms.rest, key)
  }

  // What follows a member's value: whitespace, then a comma or the closing brace.
  lemma MemberEnds(post: string, rest: Members, t: string)
    requires AllWs(post)
    ensures Ends(post + (PrintMoreMembers(rest) + ("}" + t)))
  {
    var tail := PrintMoreMembers(rest) + ("}" + t);
    if post == "" {
      assert post + tail == tail;
    }
  }

  lemma CutTail(x: string, t: string)
    ensures (x + t)[..|x + t| - |t|] == x
  {
  }

  lemma CutQuotes(raw: string, t: string)
    ensures var u := Quoted(raw) + t; u[1..|u| - |t| - 1] == raw
  {
  }

  // One printed member, scanned: its key, its value, and what is left.
  lemma ScansMember(ms: Members, tail: string)
    requires MembersOk(ms) && ms.Member? && Ends(tail)
    ensures ScanMember(Quoted(ms.key) + (ms.postKey + (":" + (ms.preValue + (Print(ms.v) + tail)))))
            == Some(Scanned(ms.key, Print(ms.v), tail))
  {
    hide AfterNest, AfterAtom, AfterWs, AfterBody, Print, PrintMoreMembers, AfterValue, AfterString, LeftOf, Quoted, Ok;
    var t4 := Print(ms.v) + tail;
    var t3 := ms.preValue + t4;
    var t2 := ms.postKey + (":" + t3);
    SkipsString(ms.key, t2);
    CutQuotes(ms.key, t2);
    SkipsWs(ms.postKey, ":" + t3);
    NoWsAhead(":" + t3);
    assert (":" + t3)[1..] == t3;
    SkipsWs(ms.preValue, t4);
    PrintHead(ms.v);
    NoWsAhead(t4);
    SkipsValue(ms.v, tail);
    CutTail(Print(ms.v), tail);
  }

  lemma PrintsMember(ms: Members, t: string)
    requires ms.Member?
    ensures PrintMembers(ms) + t
            == ms.pre + (Quoted(ms.key) + (ms.postKey + (":" + (ms.preValue + (Print(ms.v)
               + (ms.post + (PrintMoreMembers(ms.rest) + t)))))))
  {
    hide Print, PrintMoreMembers, Quoted;
  }

  lemma {:induction false} FindsMember(ms: Members, t: string, key: string)
    requires MembersOk(ms)
    ensures FindMember(PrintMembers(ms) + ("}" + t), key) == FirstMatch(ms, key)
    decreases ms, 0
  {
    hide AfterNest, AfterWs, Print, PrintMembers, AfterValue, AfterString, ScanMember, LeftOf, Ends, Ok;
    if ms.NoMembers? {
      assert PrintMembers(ms) == "" by { PrintNoMembers(); }
      assert PrintMembers(ms) + ("}" + t) == "}" + t;
      NoWsAhead("}" + t);
    } else {
      var t6 := PrintMoreMembers(ms.rest) + ("}" + t);
      var t5 := ms.post + t6;
      PrintsMember(ms, "}" + t);
      var u := Quoted(ms.key) + (ms.postKey + (":" + (ms.preValue + (Print(ms.v) + t5))));
      FindAfterWs(ms.pre, u, key);
      NoWsAhead(u);
      MemberEnds(ms.post, ms.rest, t);
      ScansMember(ms, t5);
      assert FindMember(u, key) == if ms.key == key then Print(ms.v) else FindMember(t5, key);
      FindAfterWs(ms.post, t6, key);
      FindsMore(ms.rest, t, key);
    }
  }

  lemma PrintNoMembers()
    ensures PrintMembers(NoMembers) == "" && PrintMoreMembers(NoMembers) == ""
  {
  }

  lemma {:induction false} FindsMore(ms: Members, t: string, key: string)
    requires MembersOk(ms)
    ensures FindMember(PrintMoreMembers(ms) + ("}" + t), key) == FirstMatch(ms, key)
    decreases ms, 1
  {
    hide AfterNest, AfterWs, Print, PrintMembers, AfterValue, AfterString, ScanMember, LeftOf, Ok;
    if ms.NoMembers? {
      PrintNoMembers();
      assert PrintMoreMembers(ms) + ("}" + t) == "}" + t;
      NoWsAhead("}" + t);
    } else {
      var body := PrintMembers(ms) + ("}" + t);
      assert PrintMoreMembers(ms) + ("}" + t) == "," + body;
      NoWsAhead("," + body);
      assert ("," + body)[1..] == body;
      FindsMember(ms, t, key);
    }
  }

  // For every printed object, whatever surrounds it, the lookup gives the raw text
  // of the first of its own members whose raw key matches, and nothing if none
  // does; nothing nested and nothing inside a string can answer for it.
  lemma FindsFirst(lead: string, ws: string, ms: Members, t: string, key: string)
    requires AllWs(lead) && AllWs(ws) && MembersOk(ms)
    ensures Lookup(lead + (Print(Obj(ws, ms)) + t), key) == FirstMatch(ms, key)
  {
    hide AfterWs, FindMember, PrintMembers, FirstMatch;
    var body := PrintMembers(ms) + ("}" + t);
    assert Print(Obj(ws, ms)) + t == "{" + (ws + body);
    SkipsWs(lead, "{" + (ws + body));
    NoWsAhead("{" + (ws + body));
    assert ("{" + (ws + body))[1..] == ws + body;
    FindAfterWs(ws, body, key);
    FindsMember(ms, t, key);
  }

  lemma FindAfterWs(ws: string, t: string, key: string)
    requires AllWs(ws)
    ensures FindMember(ws + t, key) == FindMember(t, key)
  {
    hide AfterWs, AfterValue, AfterString, ScanMember, LeftOf;
    SkipsWs(ws, t);
  }

  // ---- arrays ----

  datatype Taken = Taken(text: string, rest: string)

  // Where the next element starts: past a comma, if there is one.
  function AfterComma(t: string): (r: string)
    ensures LeftOf(t, r)
  {
    var u := AfterWs(t);
    if u != "" && u[0] == ',' then
      LeftOfTail(u, AfterWs(u[1..]));
      LeftOfTrans(t, u, AfterWs(u[1..]));
      AfterWs(u[1..])
    else u
  }

  // The next element from inside an array; text ends at its bracket.
  function NextFrom(t: string): (r: Option<Taken>)
    ensures r.Some? ==> LeftOf(t, r.value.rest) && |r.value.rest| < |t|
  {
    var w := AfterComma(t);
    if AfterWs(t) == "" || AfterWs(t)[0] == ']' || w == "" || w[0] == ']' then None
    else
      match AfterValue(w)
      case None => None
      case Some(rest) =>
        LeftOfTrans(t, w, rest);
        Some(Taken(Unquoted(w[..|w| - |rest|]), rest))
  }

  lemma LeftOfNext(t: string, u: string, r: Option<Taken>)
    requires LeftOf(t, u) && u != "" && (r.Some? ==> LeftOf(u[1..], r.value.rest))
    ensures r.Some? ==> LeftOf(t, r.value.rest)
  {
    if r.Some? {
      LeftOfTail(u, r.value.rest);
      LeftOfTrans(t, u, r.value.rest);
    }
  }

  lemma LeftOfTrans(t: string, u: string, r: string)
    requires LeftOf(t, u) && LeftOf(u, r)
    ensures LeftOf(t, r)
  {
    assert t[|t| - |u|..][|u| - |r|..] == t[|t| - |r|..];
  }

  function NextElement(t: string, first: bool): (r: Option<Taken>)
    ensures r.Some? ==> LeftOf(t, r.value.rest) && |r.value.rest| < |t|
  {
    if first then
      var u := AfterWs(t);
      if u == "" || u[0] != '[' then None
      else
        LeftOfNext(t, u, NextFrom(u[1..]));
        NextFrom(u[1..])
    else NextFrom(t)
  }

  function Iterated(t: string): seq<string>
    decreases |t|
  {
    match NextFrom(t)
    case None => []
    case Some(e) => [e.text] + Iterated(e.rest)
  }

  function Elements(t: string): seq<string> {
    match NextElement(t, true)
    case None => []
    case Some(e) => [e.text] + Iterated(e.rest)
  }

  function Texts(es: Elems): seq<string> {
    if es.NoElems? then [] else [Unquoted(Print(es.v))] + Texts(es.rest)
  }

  function PrintMoreElems(es: Elems): string {
    if es.NoElems? then "" else "," + PrintElems(es)
  }

  lemma ElemEnds(post: string, rest: Elems, t: string)
    requires AllWs(post)
    ensures Ends(post + (PrintMoreElems(rest) + ("]" + t)))
  {
    var tail := PrintMoreElems(rest) + ("]" + t);
    if post == "" {
      assert post + tail == tail;
    }
  }

  lemma Assoc4(a: string, b: string, c: string, d: string, e: string)
    ensures (a + (b + (c + d))) + e == a + (b + (c + (d + e)))
  {
    assert (c + d) + e == c + (d + e);
    assert (b + (c + d)) + e == b + ((c + d) + e);
  }

  // Everything after the whitespace before an element.
  function ElemText(es: Elems, t: string): string
    requires es.Elem?
  {
    Print(es.v) + (es.post + (PrintMoreElems(es.rest) + ("]" + t)))
  }

  lemma ElemTextHead(es: Elems, t: string)
    requires ElemsOk(es) && es.Elem?
    ensures PrintElems(es) + ("]" + t) == es.pre + ElemText(es, t)
    ensures AfterWs(PrintElems(es) + ("]" + t)) == ElemText(es, t) == AfterWs(ElemText(es, t))
    ensures var x := ElemText(es, t); x != "" && x[0] != ',' && x[0] != ']'
  {
    hide AfterWs, Print;
    Assoc4(es.pre, Print(es.v), es.post, PrintMoreElems(es.rest), "]" + t);
    PrintHead(es.v);
    var x := ElemText(es, t);
    SkipsWs(es.pre, x);
    NoWsAhead(x);
  }

  lemma TakesElem(es: Elems, t: string)
    requires ElemsOk(es) && es.Elem?
    ensures NextFrom(PrintElems(es) + ("]" + t))
            == Some(Taken(Unquoted(Print(es.v)), es.post + (PrintMoreElems(es.rest) + ("]" + t))))
  {
    hide AfterWs, Print, AfterValue, AfterString, LeftOf, PrintElems;
    var t2 := es.post + (PrintMoreElems(es.rest) + ("]" + t));
    ElemTextHead(es, t);
    ElemEnds(es.post, es.rest, t);
    SkipsValue(es.v, t2);
    CutTail(Print(es.v), t2);
  }

  lemma CommaFirst(u: string)
    requires AfterWs(u) != "" && AfterWs(u)[0] != ',' && AfterWs(u)[0] != ']'
    ensures NextFrom("," + u) == NextFrom(u)
  {
    hide AfterValue, LeftOf;
    NoWsAhead("," + u);
    assert ("," + u)[1..] == u;
  }

  // A comma before an element changes nothing.
  lemma SkipsComma(es: Elems, t: string)
    requires ElemsOk(es) && es.Elem?
    ensures NextFrom("," + (PrintElems(es) + ("]" + t))) == NextFrom(PrintElems(es) + ("]" + t))
  {
    hide AfterWs, NextFrom, PrintElems, ElemText;
    ElemTextHead(es, t);
    CommaFirst(PrintElems(es) + ("]" + t));
  }

  lemma {:induction false} IteratesElems(es: Elems, t: string)
    requires ElemsOk(es)
    ensures Iterated(PrintElems(es) + ("]" + t)) == Texts(es)
    ensures es.Elem? ==> Iterated("," + (PrintElems(es) + ("]" + t))) == Texts(es)
    decreases es
  {
    hide AfterWs, Print, NextFrom, PrintElems, LeftOf, Unquoted;
    if es.NoElems? {
      NoElemsLeft("", t);
      assert PrintElems(es) + ("]" + t) == "" + ("]" + t) by { PrintNone(); }
    } else {
      TakesElem(es, t);
      SkipsComma(es, t);
      if es.rest.NoElems? {
        NoElemsLeft(es.post, t);
        assert PrintMoreElems(es.rest) + ("]" + t) == "]" + t;
      } else {
        IteratesElems(es.rest, t);
        var more := "," + (PrintElems(es.rest) + ("]" + t));
        assert PrintMoreElems(es.rest) + ("]" + t) == more;
        NextAfterWs(es.post, more);
      }
    }
  }

  lemma PrintNone()
    ensures PrintElems(NoElems) == ""
  {
  }

  lemma NoElemsLeft(ws: string, t: string)
    requires AllWs(ws)
    ensures NextFrom(ws + ("]" + t)) == None
  {
    hide AfterWs, AfterValue, LeftOf;
    SkipsWs(ws, "]" + t);
    NoWsAhead("]" + t);
  }

  lemma NextAfterWs(ws: string, t: string)
    requires AllWs(ws)
    ensures NextFrom(ws + t) == NextFrom(t)
  {
    hide AfterWs, AfterValue, LeftOf;
    SkipsWs(ws, t);
  }

  // Iterating a printed array yields its elements in order, strings unquoted.
  lemma IteratesAll(lead: string, ws: string, es: Elems, t: string)
    requires AllWs(lead) && AllWs(ws) && ElemsOk(es)
    ensures Elements(lead + (Print(Arr(ws, es)) + t)) == Texts(es)
  {
    hide AfterWs, NextFrom, PrintElems, Texts;
    var body := PrintElems(es) + ("]" + t);
    assert Print(Arr(ws, es)) + t == "[" + (ws + body);
    SkipsWs(lead, "[" + (ws + body));
    NoWsAhead("[" + (ws + body));
    assert ("[" + (ws + body))[1..] == ws + body;
    NextAfterWs(ws, body);
    IteratesElems(es, t);
    assert Elements(lead + (Print(Arr(ws, es)) + t)) == Iterated(body);
  }
}
