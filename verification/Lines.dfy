// A text's lines: the pieces between newlines, with no empty piece after a final
// newline.
module Lines {
  const NEWLINE: char := '\n'

  // Where the first newline is, or the length.
  function NewlineAt(t: string): (n: nat)
    ensures n <= |t| && NEWLINE !in t[..n] && (n < |t| ==> t[n] == NEWLINE)
  {
    if t == "" || t[0] == NEWLINE then 0 else 1 + NewlineAt(t[1..])
  }

  function LinesOf(t: string): seq<string>
    decreases |t|
  {
    if t == "" then []
    else
      var n := NewlineAt(t);
      if n < |t| then [t[..n]] + LinesOf(t[n + 1..]) else [t]
  }

  lemma {:induction false} NewlineIs(t: string, n: nat)
    requires n <= |t| && NEWLINE !in t[..n] && (n < |t| ==> t[n] == NEWLINE)
    ensures NewlineAt(t) == n
    decreases n
  {
    if n > 0 {
      assert t[..n][0] == t[0];
      assert t[1..][..n - 1] == t[..n][1..];
      NewlineIs(t[1..], n - 1);
    }
  }

  // ---- lines and their text ----

  predicate NoNewlines(ls: seq<string>) {
    forall i | 0 <= i < |ls| :: NEWLINE !in ls[i]
  }

  // Every line followed by a newline, then what comes after the last of them.
  function TextOf(ls: seq<string>, last: string): string {
    if ls == [] then last else ls[0] + ([NEWLINE] + TextOf(ls[1..], last))
  }

  // Splitting gives back what was joined: the lines, and a last one only if it
  // is not empty.
  lemma {:induction false} LinesOfText(ls: seq<string>, last: string)
    requires NoNewlines(ls) && NEWLINE !in last
    ensures LinesOf(TextOf(ls, last)) == if last == "" then ls else ls + [last]
    decreases |ls|
  {
    if ls == [] {
      assert last[..|last|] == last;
      NewlineIs(last, |last|);
    } else {
      var rest := TextOf(ls[1..], last);
      var t := TextOf(ls, last);
      assert t[..|ls[0]|] == ls[0];
      NewlineIs(t, |ls[0]|);
      assert t[|ls[0]| + 1..] == rest;
      LinesOfText(ls[1..], last);
    }
  }

  // Every text is what its own lines join to, with or without a final newline.
  lemma {:induction false} TextOfLines(t: string) returns (ls: seq<string>, last: string)
    ensures NoNewlines(ls) && NEWLINE !in last && TextOf(ls, last) == t
    ensures LinesOf(t) == if last == "" then ls else ls + [last]
    decreases |t|
  {
    var n := NewlineAt(t);
    if n < |t| {
      var more;
      more, last := TextOfLines(t[n + 1..]);
      ls := [t[..n]] + more;
      assert t == t[..n] + ([NEWLINE] + t[n + 1..]);
      assert ls[1..] == more;
    } else {
      ls, last := [], t;
      assert t[..n] == t;
    }
    LinesOfText(ls, last);
  }
}
