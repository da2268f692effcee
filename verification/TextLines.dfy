/** Text cut into lines: what readers of newline-terminated lines do. One character is one byte. */
module TextLines {
  import opened Sequences

  const NEWLINE: char := '\n'

  /** The newline-terminated lines of a stream, with their newlines. */
  function Lines(s: string): seq<string> {
    if s == [] then []
    else
      var init := s[..|s| - 1];
      if s[|s| - 1] == NEWLINE then Lines(init) + [Tail(init) + [NEWLINE]] else Lines(init)
  }

  /** What follows the last newline. */
  function Tail(s: string): (t: string)
    ensures |t| <= |s|
  {
    if s == [] || s[|s| - 1] == NEWLINE then [] else Tail(s[..|s| - 1]) + [s[|s| - 1]]
  }

  /** The stream without its unfinished line. */
  function Complete(s: string): string {
    s[..|s| - |Tail(s)|]
  }

  lemma {:induction false} TailIsOpen(s: string)
    ensures NEWLINE !in Tail(s)
  {
    if s != [] { TailIsOpen(s[..|s| - 1]); }
  }

  predicate IsLine(l: string) {
    l != [] && l[|l| - 1] == NEWLINE && NEWLINE !in l[..|l| - 1]
  }

  /** Newlines end lines and are nowhere else. */
  lemma {:induction false} LinesAreLines(s: string)
    ensures forall k :: 0 <= k < |Lines(s)| ==> IsLine(Lines(s)[k])
  {
    if s != [] {
      var init := s[..|s| - 1];
      LinesAreLines(init);
      TailIsOpen(init);
      assert (Tail(init) + [NEWLINE])[..|Tail(init)|] == Tail(init);
    }
  }

  /** The lines and the tail make up the stream. */
  lemma {:induction false} LinesAreTheStream(s: string)
    ensures Concat(Lines(s)) + Tail(s) == s
  {
    if s != [] {
      var init, last := s[..|s| - 1], s[|s| - 1];
      LinesAreTheStream(init);
      ConcatLast(Lines(init), Tail(init) + [NEWLINE]);
      Associate(Concat(Lines(init)), Tail(init), [last]);
      assert s == init + [last];
    }
  }

  lemma {:induction false} NoNewline(t: string)
    requires NEWLINE !in t
    ensures Lines(t) == [] && Tail(t) == t
  {
    if t != [] {
      assert t[|t| - 1] in t;
      NoNewline(t[..|t| - 1]);
    }
  }

  /** A line ends with its only newline, and the tail has none. */
  lemma {:induction false} LinesEnd(s: string)
    ensures '\n' !in Tail(s)
    ensures forall i :: 0 <= i < |Lines(s)| ==>
              var line := Lines(s)[i]; line != [] && line[|line| - 1] == '\n' && '\n' !in line[..|line| - 1]
  {
    TailIsOpen(s);
    if s != [] {
      var init := s[..|s| - 1];
      LinesEnd(init);
      assert (Tail(init) + [NEWLINE])[..|Tail(init)|] == Tail(init);
    }
  }

  /** One more byte. */
  lemma OneByte(s: string, x: char)
    ensures Lines(s + [x]) == if x == NEWLINE then Lines(s) + [Tail(s) + [NEWLINE]] else Lines(s)
    ensures Tail(s + [x]) == if x == NEWLINE then [] else Tail(s) + [x]
  {
    assert (s + [x])[..|s|] == s;
  }

  /** A stream may be cut anywhere, if the unfinished line is put before the next piece. */
  lemma {:induction false} CutAnywhere(s: string, b: string)
    ensures Lines(s + b) == Lines(s) + Lines(Tail(s) + b)
    ensures Tail(s + b) == Tail(Tail(s) + b)
  {
    if b == [] {
      TailIsOpen(s);
      NoNewline(Tail(s));
      assert s + b == s && Tail(s) + b == Tail(s);
    } else {
      CutAnywhere(s, b[..|b| - 1]);
      CutByte(s, b[..|b| - 1], b[|b| - 1]);
      assert b == b[..|b| - 1] + [b[|b| - 1]];
    }
  }

  /** One more byte on both sides. */
  lemma CutByte(s: string, init: string, last: char)
    requires Lines(s + init) == Lines(s) + Lines(Tail(s) + init) && Tail(s + init) == Tail(Tail(s) + init)
    ensures Lines(s + (init + [last])) == Lines(s) + Lines(Tail(s) + (init + [last]))
    ensures Tail(s + (init + [last])) == Tail(Tail(s) + (init + [last]))
  {
    Associate(s, init, [last]);
    Associate(Tail(s), init, [last]);
    OneByte(s + init, last);
    OneByte(Tail(s) + init, last);
    if last == NEWLINE {
      Associate(Lines(s), Lines(Tail(s) + init), [Tail(s + init) + [NEWLINE]]);
    }
  }

  /** The first line of a stream. */
  lemma FirstLine(text: string, rest: string)
    requires NEWLINE !in text
    ensures Lines((text + [NEWLINE]) + rest) == [text + [NEWLINE]] + Lines(rest)
    ensures Tail((text + [NEWLINE]) + rest) == Tail(rest)
  {
    NoNewline(text);
    OneByte(text, NEWLINE);
    CutAnywhere(text + [NEWLINE], rest);
    assert [] + rest == rest && [] + [text + [NEWLINE]] == [text + [NEWLINE]];
  }

  lemma {:induction false} CompleteHasAllLines(s: string)
    ensures Lines(Complete(s)) == Lines(s) && Tail(Complete(s)) == []
  {
    if s == [] || s[|s| - 1] == NEWLINE {
      assert Complete(s) == s;
    } else {
      CompleteHasAllLines(s[..|s| - 1]);
      assert Complete(s) == Complete(s[..|s| - 1]);
    }
  }

  /** data.ReadBytes('\n'): the bytes up to the first newline, or an error and all that is left. */
  method ReadBytes(data: string) returns (line: string, rest: string, eof: bool)
    ensures data == line + rest
    ensures eof ==> rest == [] && NEWLINE !in line
    ensures !eof ==> IsLine(line)
  {
    for i := 0 to |data|
      invariant NEWLINE !in data[..i]
    {
      if data[i] == NEWLINE {
        assert data[..i + 1][..i] == data[..i];
        return data[..i + 1], data[i + 1..], false;
      }
    }
    assert data[..|data|] == data;
    return data, [], true;
  }

  lemma FirstRead(data: string, line: string, rest: string)
    requires data == line + rest && IsLine(line)
    ensures Lines(data) == [line] + Lines(rest) && Tail(data) == Tail(rest)
  {
    assert line == line[..|line| - 1] + [NEWLINE];
    FirstLine(line[..|line| - 1], rest);
  }

  /** The inner loop over the lines of the data. */
  method SplitLines(data: string) returns (lines: seq<string>, line: string)
    ensures lines == Lines(data) && line == Tail(data)
  {
    lines := [];
    var rest := data;
    while true
      invariant Lines(data) == lines + Lines(rest) && Tail(data) == Tail(rest)
      decreases |rest|
    {
      ghost var before := rest;
      var eof;
      line, rest, eof := ReadBytes(rest);
      if eof {
        assert line + rest == line;
        NoNewline(line);
        return;
      }
      FirstRead(before, line, rest);
      assert lines + ([line] + Lines(rest)) == (lines + [line]) + Lines(rest);
      lines := lines + [line];
    }
  }

  /** Lines put together are cut into the same lines. */
  lemma {:induction false} LinesOfConcat(ls: seq<string>)
    requires forall k :: 0 <= k < |ls| ==> IsLine(ls[k])
    ensures Lines(Concat(ls)) == ls && Tail(Concat(ls)) == []
  {
    if ls != [] {
      LinesOfConcat(ls[1..]);
      FirstRead(Concat(ls), ls[0], Concat(ls[1..]));
      assert ls == [ls[0]] + ls[1..];
    }
  }
}
