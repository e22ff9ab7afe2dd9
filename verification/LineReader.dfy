// The buffered line reader: however a stream is cut into chunks, the lines that
// come out are the stream split at its newlines.
module LineReaders {
  import opened Lines

  const CHUNK: nat := 65536

  type Chunks = seq<string>

  // What a source hands over before it ends: any number of pieces, none empty,
  // none larger than asked for.
  ghost predicate ChunksOk(cs: Chunks) {
    forall i | 0 <= i < |cs| :: 0 < |cs[i]| <= CHUNK
  }

  function Joined(cs: Chunks): string {
    if cs == [] then "" else cs[0] + Joined(cs[1..])
  }

  lemma JoinedNext(held: string, cs: Chunks)
    requires cs != []
    ensures held + Joined(cs) == (held + cs[0]) + Joined(cs[1..])
  {
    assert held + (cs[0] + Joined(cs[1..])) == (held + cs[0]) + Joined(cs[1..]);
  }

  class LineReader {
    var source: Chunks
    var buf: array<char>
    var pos: nat
    var end: nat
    var eof: bool
    var bytes: nat

    ghost predicate Valid()
      reads this, buf
    {
      pos <= end <= buf.Length && ChunksOk(source) && (eof ==> source == [])
    }

    // What has not been yielded yet.
    ghost function Rest(): string
      requires Valid()
      reads this, buf
    {
      buf[pos..end] + Joined(source)
    }

    constructor (source: Chunks)
      requires ChunksOk(source)
      ensures Valid() && fresh(buf) && Rest() == Joined(source) && bytes == 0
    {
      this.source := source;
      buf := new char[CHUNK](_ => ' ');
      pos, end, eof, bytes := 0, 0, false, 0;
      new;
      assert buf[..0] + Joined(source) == Joined(source);
    }

    // What has not been yielded starts at the buffer's first byte.
    method Compact()
      requires Valid()
      modifies this`pos, this`end, buf
      ensures Valid() && pos == 0 && buf[..end] == old(buf[pos..end]) && end == old(end - pos)
    {
      var keep := end - pos;
      ghost var held := buf[pos..end];
      for k := 0 to keep
        invariant pos == old(pos) && end == old(end)
        invariant forall j | 0 <= j < k :: buf[j] == held[j]
        invariant forall m | pos + k <= m < end :: buf[m] == held[m - pos]
      {
        buf[k] := buf[pos + k];
      }
      assert buf[..keep] == held;
      pos, end := 0, keep;
    }

    // Make room for `more` characters after the end.
    method Reserve(more: nat)
      requires Valid()
      modifies this`buf
      ensures Valid() && end + more <= buf.Length && buf[..end] == old(buf[..end]) && (buf == old(buf) || fresh(buf))
    {
      if end + more > buf.Length {
        var bigger := new char[end + more](_ => ' ');
        for k := 0 to end
          invariant buf == old(buf) && forall j | 0 <= j < k :: bigger[j] == buf[j]
        {
          bigger[k] := buf[k];
        }
        assert bigger[..end] == old(buf[..end]);
        buf := bigger;
      }
    }

    // Append a chunk that fits.
    method Take(c: string)
      requires Valid() && end + |c| <= buf.Length
      modifies this`end, this`bytes, buf
      ensures Valid() && end == old(end) + |c| && buf[..end] == old(buf[..end]) + c && bytes == old(bytes) + |c|
    {
      ghost var held := buf[..end];
      for k := 0 to |c|
        invariant pos == old(pos) && end == old(end) && source == old(source) && eof == old(eof) && bytes == old(bytes)
        invariant buf[..end + k] == held + c[..k]
      {
        buf[end + k] := c[k];
        assert c[..k + 1] == c[..k] + [c[k]];
      }
      assert c[..|c|] == c;
      end, bytes := end + |c|, bytes + |c|;
    }

    // Read one more chunk, if there is one.
    method Fill() returns (more: bool)
      requires Valid()
      modifies this, buf
      ensures Valid() && Rest() == old(Rest()) && (buf == old(buf) || fresh(buf))
      ensures if more then |source| < |old(source)| else source == [] == old(source)
      ensures bytes - (end - pos) == old(bytes - (end - pos))
    {
      hide Joined;
      if eof {
        return false;
      }
      Compact();
      Reserve(CHUNK);
      if source == [] {
        eof := true;
        assert buf[..end] == buf[0..end];
        return false;
      }
      ghost var before := buf[..end];
      assert Rest() == before + Joined(source) by { assert buf[pos..end] == buf[..end]; }
      TakeNext();
      return true;
    }

    // The first chunk moves from the source to the buffer.
    method TakeNext()
      requires Valid() && source != [] && pos == 0 && end + CHUNK <= buf.Length
      modifies this`source, this`end, this`bytes, buf
      ensures Valid() && Rest() == old(Rest()) && |source| < |old(source)| && bytes - end == old(bytes - end)
    {
      hide Joined;
      ghost var before := buf[..end];
      assert buf[pos..end] == before;
      JoinedNext(before, source);
      var c := source[0];
      source := source[1..];
      Take(c);
      assert buf[pos..end] == before + c;
    }

    // The first newline in the buffer, or its end.
    method Newline() returns (n: nat)
      requires Valid()
      ensures pos <= n <= end && NEWLINE !in buf[pos..n] && (n < end ==> buf[n] == NEWLINE)
    {
      n := pos;
      while n < end && buf[n] != NEWLINE
        invariant pos <= n <= end && forall j | pos <= j < n :: buf[j] != NEWLINE
      {
        n := n + 1;
      }
    }

    // Yields the first line of what is left, if there is any.
    method Next() returns (ok: bool, line: string)
      requires Valid()
      modifies this, buf
      ensures Valid() && (buf == old(buf) || fresh(buf))
      ensures var ls := LinesOf(old(Rest()));
              if ls == [] then !ok && Rest() == old(Rest())
              else ok && line == ls[0] && LinesOf(Rest()) == ls[1..]
      ensures ok ==> |Rest()| < |old(Rest())|
    {
      hide NewlineAt, LinesOf, Joined;
      ghost var rest := Rest();
      LinesNone();
      while true
        invariant Valid() && Rest() == rest && (buf == old(buf) || fresh(buf))
        decreases |source|
      {
        var n := Newline();
        if n < end {
          line := buf[pos..n];
          FirstLine(buf[..], Joined(source), pos, n, end);
          pos := n + 1;
          return true, line;
        }
        NothingComing(buf[pos..end]);
        var more := Fill();
        if !more {
          NothingComing(buf[pos..end]);
          if end > pos {
            line := buf[pos..end];
            LastLine(rest);
            pos := end;
            NothingComing("");
            return true, line;
          }
          return false, "";
        }
      }
    }

    // Every line, as a caller loops over them: the whole stream split on newlines,
    // however it was cut into chunks.
    method AllLines() returns (lines: seq<string>)
      requires Valid()
      modifies this, buf
      ensures Valid() && (buf == old(buf) || fresh(buf)) && lines == LinesOf(old(Rest()))
    {
      hide LinesOf, LineReader.Valid, LineReader.Rest;
      lines := [];
      ghost var all := LinesOf(Rest());
      while true
        invariant Valid() && (buf == old(buf) || fresh(buf)) && lines + LinesOf(Rest()) == all
        decreases |Rest()|
      {
        ghost var left, before := LinesOf(Rest()), lines;
        var ok, line := Next();
        if !ok {
          return;
        }
        lines := lines + [line];
        assert left == [left[0]] + left[1..];
        assert before + ([left[0]] + left[1..]) == lines + left[1..];
      }
    }
  }

  lemma LinesNone()
    ensures LinesOf("") == []
  {
  }

  lemma NothingComing(held: string)
    ensures held + Joined([]) == held
  {
  }

  // A newline in the buffer ends the first line of everything that is left.
  lemma FirstLine(buf: string, coming: string, pos: nat, n: nat, end: nat)
    requires pos <= n < end <= |buf| && buf[n] == NEWLINE && NEWLINE !in buf[pos..n]
    ensures var ls := LinesOf(buf[pos..end] + coming);
            ls != [] && ls[0] == buf[pos..n] && ls[1..] == LinesOf(buf[n + 1..end] + coming)
  {
    var t, line, more := buf[pos..end] + coming, buf[pos..n], buf[n + 1..end] + coming;
    assert buf[pos..end] == line + ([NEWLINE] + buf[n + 1..end]);
    assert t == line + ([NEWLINE] + more);
    assert t[..|line|] == line;
    NewlineIs(t, |line|);
    assert t[|line| + 1..] == more;
  }

  lemma LastLine(t: string)
    requires t != "" && NEWLINE !in t
    ensures LinesOf(t) == [t]
  {
    assert t[..|t|] == t;
    NewlineIs(t, |t|);
  }
}
