/** Reading the last lines of a file from its end: in blocks, and byte by byte. */
module TailLines {
  import opened FlatYaml
  import opened FlatYamlLaws

  const BLOCK := 8192

  function Newlines(s: string): nat { if s == [] then 0 else (if s[0] == '\n' then 1 else 0) + Newlines(s[1..]) }

  /** The plain answer: the last `n` lines of the whole file, or all of them. */
  function LastLines(file: string, n: nat): seq<string> { Last(Lines(file), n) }

  function Last<T>(s: seq<T>, n: nat): seq<T> { if n >= |s| then s else s[|s| - n..] }

  /** Python's `s[-n:]`. */
  function FromEnd<T>(s: seq<T>, n: int): seq<T> {
    if n > 0 then Last(s, n) else if n == 0 then s else if -n >= |s| then [] else s[-n..]
  }

  // ------------------------------------------------------------------ why a suffix is enough

  lemma {:induction false} NewlinesConcat(a: string, b: string)
    ensures Newlines(a + b) == Newlines(a) + Newlines(b)
  {
    if a == [] {
      assert a + b == b;
    } else {
      assert (a + b)[1..] == a[1..] + b;
      NewlinesConcat(a[1..], b);
    }
  }

  lemma {:induction false} NoNewlines(s: string)
    ensures Newlines(s) == 0 <==> OneLine(s)
  {
    if s != [] {
      NoNewlines(s[1..]);
      assert s == [s[0]] + s[1..];
    }
  }

  lemma NewlinesHead(line: string, rest: string)
    requires OneLine(line)
    ensures Newlines(line + "\n" + rest) == 1 + Newlines(rest) && Newlines(line) == 0
  {
    NoNewlines(line);
    NewlinesConcat(line + "\n", rest);
    NewlinesConcat(line, "\n");
  }

  /** The first line and what follows it. */
  lemma FirstLine(s: string) returns (line: string, rest: string)
    requires !OneLine(s)
    ensures OneLine(line) && s == line + "\n" + rest && Lines(s) == [line] + Lines(rest) && |rest| < |s|
  {
    var n := Break(s);
    assert s[..n] == s || n < |s|;
    line, rest := s[..n], s[n + 1..];
  }

  /** A text has at least as many lines as line breaks. */
  lemma {:induction false} EnoughLines(s: string)
    ensures |Lines(s)| >= Newlines(s)
    decreases |s|
  {
    hide *;
    NoNewlines(s);
    if !OneLine(s) {
      var line, rest := FirstLine(s);
      NewlinesHead(line, rest);
      EnoughLines(rest);
    }
  }

  lemma LinesOfOne(line: string)
    requires OneLine(line)
    ensures Lines(line + "\n") == [line]
  {
    LinesHead(line, "");
    LinesOfNothing();
    assert line + "\n" + "" == line + "\n" && [line] + [] == [line];
  }

  /** Lines before and after a line break are read separately. */
  lemma {:induction false} LinesAcrossBreak(a: string, b: string)
    ensures Lines(a + "\n" + b) == Lines(a + "\n") + Lines(b)
    decreases |a|
  {
    hide *;
    if OneLine(a) {
      LinesHead(a, b);
      LinesOfOne(a);
    } else {
      var line, rest := FirstLine(a);
      assert a + "\n" + b == line + "\n" + (rest + "\n" + b);
      assert a + "\n" == line + "\n" + (rest + "\n");
      LinesHead(line, rest + "\n" + b);
      LinesHead(line, rest + "\n");
      LinesAcrossBreak(rest, b);
      assert [line] + (Lines(rest + "\n") + Lines(b)) == [line] + Lines(rest + "\n") + Lines(b);
    }
  }

  lemma LastOfConcat<T>(a: seq<T>, b: seq<T>, n: nat)
    requires |b| >= n
    ensures Last(a + b, n) == Last(b, n)
  {
  }

  /** More than `n` line breaks in a suffix of the file: its last `n` lines are the file's. */
  lemma SuffixIsEnough(prefix: string, suffix: string, n: nat)
    requires Newlines(suffix) > n
    ensures Last(Lines(suffix), n) == LastLines(prefix + suffix, n)
  {
    hide Newlines, Lines, Last, OneLine;
    NoNewlines(suffix);
    var first, rest := FirstLine(suffix);
    NewlinesHead(first, rest);
    EnoughLines(rest);
    assert prefix + suffix == (prefix + first) + "\n" + rest;
    LinesAcrossBreak(prefix + first, rest);
    LastOfConcat([first], Lines(rest), n);
    LastOfConcat(Lines(prefix + first + "\n"), Lines(rest), n);
  }

  // ------------------------------------------------------------------ the two readers

  /** Blocks from the end until more than `n` line breaks are in hand. A missing file has no lines. */
  method TailOfFile(present: bool, file: string, n: int) returns (lines: seq<string>)
    ensures n <= 0 || !present ==> lines == []
    ensures n > 0 && present ==> lines == LastLines(file, n)
  {
    if n <= 0 || !present {
      return [];
    }
    hide Lines, Newlines;
    var remaining, data := |file|, "";
    while remaining > 0 && Newlines(data) <= n
      invariant 0 <= remaining <= |file| && data == file[remaining..]
    {
      var step := if BLOCK < remaining then BLOCK else remaining;
      remaining := remaining - step;
      data := file[remaining..remaining + step] + data;
    }
    if remaining > 0 {
      SuffixIsEnough(file[..remaining], data, n);
      assert file == file[..remaining] + data;
    } else {
      assert data == file;
    }
    lines := FromEnd(Lines(data), n);
  }

  /** What the byte-wise reader stops at: everything, or a suffix with as many line breaks as it wants. */
  ghost predicate ReadFar(file: string, raw: string, pos: int, n: int) {
    && -1 <= pos < |file| && raw == file[pos + 1..] && (pos < 0 || Newlines(raw) >= n + 1)
  }

  lemma ReadFarIsEnough(file: string, raw: string, pos: int, n: int)
    requires n > 0 && ReadFar(file, raw, pos, n)
    ensures FromEnd(Lines(raw), n) == LastLines(file, n)
  {
    hide Lines, Newlines;
    if pos >= 0 {
      assert file == file[..pos + 1] + raw;
      SuffixIsEnough(file[..pos + 1], raw, n);
    } else {
      assert raw == file;
    }
  }

  /** Asked for no lines the reader still returns all it has read, which is something unless the file is empty. */
  lemma NoLinesIsNotNone(file: string, raw: string, pos: int)
    requires ReadFar(file, raw, pos, 0)
    ensures FromEnd(Lines(raw), 0) == [] <==> file == ""
  {
    hide Lines;
    LinesAreLines(raw);
    LinesOfNothing();
    assert pos < 0 ==> raw == file;
  }

  lemma NewlinesCons(c: char, rest: string)
    ensures Newlines([c] + rest) == (if c == '\n' then 1 else 0) + Newlines(rest)
    ensures Newlines([]) == 0
  {
    assert ([c] + rest)[1..] == rest;
  }

  /** One byte at a time from the end, collected backwards, until `n + 1` line breaks are seen. */
  method TailLog(file: string, n: int) returns (lines: seq<string>)
    ensures n > 0 ==> lines == LastLines(file, n)
    ensures n == 0 ==> (lines == [] <==> file == "")
    ensures n < 0 ==> lines == []
  {
    hide Lines, Newlines, LastLines, FromEnd, ReadFar;
    var buf, pos := ReadBackwards(file, n);
    var raw := Reversed(buf);
    ReadFarReversed(file, buf, raw, pos, n);
    if n > 0 {
      ReadFarIsEnough(file, raw, pos, n);
    } else if n == 0 {
      NoLinesIsNotNone(file, raw, pos);
    } else {
      NothingFromNothing(n);
    }
    lines := FromEnd(Lines(raw), n);
  }

  lemma NothingFromNothing(n: int)
    ensures FromEnd(Lines([]), n) == []
  {
    LinesOfNothing();
  }

  /** The reading loop of `TailLog`: the bytes after `pos`, last one first. */
  ghost predicate ReadBack(file: string, buf: string, pos: int) {
    && -1 <= pos < |file| && |buf| == |file| - 1 - pos
    && forall k | 0 <= k < |buf| :: buf[k] == file[|file| - 1 - k]
  }

  method ReadBackwards(file: string, n: int) returns (buf: string, pos: int)
    ensures ReadBack(file, buf, pos) && (pos < 0 || Newlines(file[pos + 1..]) >= n + 1)
    ensures n < 0 ==> buf == []
  {
    hide Newlines;
    var found := 0;
    pos, buf := |file| - 1, [];
    NewlinesCons(' ', []);
    assert file[pos + 1..] == [];
    while pos >= 0 && found < n + 1
      invariant ReadBack(file, buf, pos) && found == Newlines(file[pos + 1..]) && found >= 0
      invariant n < 0 ==> buf == []
    {
      var c := file[pos];
      assert file[pos..] == [c] + file[pos + 1..];
      NewlinesCons(c, file[pos + 1..]);
      if c == '\n' {
        found := found + 1;
      }
      buf := buf + [c];
      pos := pos - 1;
    }
  }

  lemma ReadFarReversed(file: string, buf: string, raw: string, pos: int, n: int)
    requires ReadBack(file, buf, pos) && (pos < 0 || Newlines(file[pos + 1..]) >= n + 1)
    requires |raw| == |buf| && forall k | 0 <= k < |buf| :: raw[k] == buf[|buf| - 1 - k]
    ensures ReadFar(file, raw, pos, n) && (buf == [] ==> raw == [])
  {
    hide Newlines;
    assert raw == file[pos + 1..];
  }

  function Reversed(s: string): (r: string)
    ensures |r| == |s| && forall k | 0 <= k < |s| :: r[k] == s[|s| - 1 - k]
  {
    if s == [] then [] else [s[|s| - 1]] + Reversed(s[..|s| - 1])
  }
}
