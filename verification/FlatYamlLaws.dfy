/** What editing a flat YAML text keeps: exactly when reading gives back the updates, which lines
    change, and that a second rendering changes nothing. */
module FlatYamlLaws {
  import opened Results
  import opened FlatYaml

  // ------------------------------------------------------------------ one rendered line

  predicate IsKey(s: string) { s != [] && IsKeyStart(s[0]) && forall c | c in s :: IsKeyChar(c) }
  /** Keys are made of letters, digits and underscores, and do not start with a digit. */
  lemma KeyCharacters()
    ensures forall c | c in "AZaz_" :: IsKeyStart(c) && IsKeyChar(c)
    ensures forall c | c in "09" :: !IsKeyStart(c) && IsKeyChar(c)
    ensures forall c | c in "@[`{/:-. " :: !IsKeyStart(c) && !IsKeyChar(c)
  {
  }

  predicate Trimmed(s: string) { Trim(s) == s }

  lemma {:induction false} KeyLengthOf(key: string, rest: string)
    requires (forall c | c in key :: IsKeyChar(c)) && rest != [] && !IsKeyChar(rest[0])
    ensures KeyLength(key + rest) == |key|
  {
    if key == [] {
      assert key + rest == rest;
    } else {
      assert (key + rest)[1..] == key[1..] + rest;
      assert key[0] in key;
      KeyLengthOf(key[1..], rest);
    }
  }

  lemma SpaceBefore(value: string)
    ensures TrimLeft(" " + value) == TrimLeft(value)
  {
    assert (" " + value)[1..] == value;
  }

  /** A rendered line reads back as its entry. */
  lemma EntryLineReads(e: Entry)
    requires IsKey(e.key)
    ensures KeyOf(EntryLine(e)) == Some(e.key)
    ensures EntryOf(EntryLine(e)) == Some(Entry(e.key, Trim(e.value)))
  {
    var line, rest := EntryLine(e), ": " + e.value;
    assert line == e.key + rest;
    assert rest[0] == ':' && !IsKeyChar(':');
    KeyLengthOf(e.key, rest);
    assert line[..|e.key|] == e.key && line[|e.key| + 1..] == " " + e.value;
    SpaceBefore(e.value);
    assert line[0] == e.key[0] && !IsSpace(line[0]);
  }

  lemma EntryLineIsOneLine(e: Entry)
    requires IsKey(e.key) && OneLine(e.value)
    ensures OneLine(EntryLine(e)) && EntryLine(e) != ""
  {
  }

  // ------------------------------------------------------------------ updates

  ghost predicate DistinctKeys(us: seq<Entry>) {
    forall i, j | 0 <= i < j < |us| :: us[i].key != us[j].key
  }

  /** Keys that can be rendered, values as they are normalised: trimmed and on one line. */
  ghost predicate WellFormed(us: seq<Entry>) {
    DistinctKeys(us) && forall u | u in us :: IsKey(u.key) && OneLine(u.value)
  }

  ghost predicate AllTrimmed(us: seq<Entry>) { forall u | u in us :: Trimmed(u.value) }

  lemma {:induction false} WithoutKeeps(us: seq<Entry>, key: string)
    ensures forall u :: u in Without(us, key) <==> u in us && u.key != key
    ensures forall k | k in Keys(us) && k != key :: k in Keys(Without(us, key)) && ValueFor(Without(us, key), k) == ValueFor(us, k)
    ensures Keys(Without(us, key)) == Keys(us) - {key}
  {
    if us != [] {
      WithoutKeeps(us[1..], key);
      assert us == [us[0]] + us[1..];
      var rest := Without(us[1..], key);
      assert ([us[0]] + rest)[1..] == rest;
      assert [] + rest == rest;
      KeysHead(us);
      if us[0].key != key {
        KeysHead([us[0]] + rest);
      }
    }
  }

  lemma KeysHead(us: seq<Entry>)
    requires us != []
    ensures Keys(us) == {us[0].key} + Keys(us[1..])
  {
    assert us == [us[0]] + us[1..];
  }

  lemma {:induction false} WithoutDistinct(us: seq<Entry>, key: string)
    requires DistinctKeys(us)
    ensures DistinctKeys(Without(us, key))
  {
    if us != [] {
      WithoutDistinct(us[1..], key);
      WithoutKeeps(us[1..], key);
      var rest := Without(us[1..], key);
      assert forall u | u in rest :: u in us[1..] && u.key != us[0].key;
      assert forall i | 0 <= i < |rest| :: rest[i] in rest;
    }
  }

  lemma WithoutWellFormed(us: seq<Entry>, key: string)
    requires WellFormed(us)
    ensures WellFormed(Without(us, key)) && (AllTrimmed(us) ==> AllTrimmed(Without(us, key)))
  {
    hide Without, IsKey, OneLine;
    WithoutDistinct(us, key);
    WithoutKeeps(us, key);
  }

  lemma {:induction false} ValueIn(us: seq<Entry>, key: string)
    requires key in Keys(us)
    ensures Entry(key, ValueFor(us, key)) in us
  {
    if us[0].key != key {
      KeysHead(us);
      ValueIn(us[1..], key);
    }
  }

  // ------------------------------------------------------------------ what is read back

  function Get(m: map<string, string>, key: string): Option<string> { if key in m then Some(m[key]) else None }

  /** How many lines set this key. */
  function Count(lines: seq<string>, key: string): nat {
    if lines == [] then 0 else (if KeyOf(lines[0]) == Some(key) then 1 else 0) + Count(lines[1..], key)
  }

  lemma ParseHead(line: string, rest: seq<string>, key: string)
    ensures Get(Parse([line] + rest), key)
         == if key in Parse(rest) then Get(Parse(rest), key)
            else if KeyOf(line) == Some(key) then Some(EntryOf(line).value.value) else None
  {
    hide EntryOf, IsComment;
    assert ([line] + rest)[1..] == rest;
  }

  lemma {:induction false} ParseCounts(lines: seq<string>, key: string)
    ensures key in Parse(lines) <==> Count(lines, key) > 0
  {
    if lines != [] {
      ParseCounts(lines[1..], key);
      assert lines == [lines[0]] + lines[1..];
      ParseHead(lines[0], lines[1..], key);
    }
  }

  lemma {:induction false} ParseEntryLines(us: seq<Entry>, key: string)
    requires WellFormed(us) && AllTrimmed(us)
    ensures Get(Parse(EntryLines(us)), key) == if key in Keys(us) then Some(ValueFor(us, key)) else None
  {
    if us != [] {
      assert us == [us[0]] + us[1..] && us[0] in us;
      ParseEntryLines(us[1..], key);
      EntryLineReads(us[0]);
      ParseHead(EntryLine(us[0]), EntryLines(us[1..]), key);
      KeysHead(us);
      assert us[0].key !in Keys(us[1..]) by {
        forall u | u in us[1..] ensures u.key != us[0].key {
        }
      }
    }
  }

  /** What a key reads as afterwards: the update if it had at most one line, and otherwise its old
      last line, which rendering leaves alone. */
  function ReadsAs(lines: seq<string>, us: seq<Entry>, key: string): Option<string> {
    if key in Keys(us) && Count(lines, key) <= 1 then Some(ValueFor(us, key)) else Get(Parse(lines), key)
  }

  lemma {:induction false} RenderReads(lines: seq<string>, us: seq<Entry>, key: string)
    requires WellFormed(us) && AllTrimmed(us)
    ensures Get(Parse(Render(lines, us)), key) == ReadsAs(lines, us, key)
    decreases |lines|
  {
    if lines == [] {
      ParseEntryLines(us, key);
    } else {
      var line, rest := lines[0], lines[1..];
      assert lines == [line] + rest;
      ParseHead(line, rest, key);
      ParseCounts(rest, key);
      var k := KeyOf(line);
      if k.Some? && k.value in Keys(us) {
        WithoutWellFormed(us, k.value);
        RenderReads(rest, Without(us, k.value), key);
        ReplacedReads(line, rest, us, k.value, key);
      } else {
        RenderReads(rest, us, key);
        ParseHead(line, Render(rest, us), key);
        ParseCounts(Render(rest, us), key);
      }
    }
  }

  lemma ReplacedReads(line: string, rest: seq<string>, us: seq<Entry>, k: string, key: string)
    requires WellFormed(us) && AllTrimmed(us) && KeyOf(line) == Some(k) && k in Keys(us)
    requires Get(Parse(Render(rest, Without(us, k))), key) == ReadsAs(rest, Without(us, k), key)
    ensures Get(Parse([EntryLine(Entry(k, ValueFor(us, k)))] + Render(rest, Without(us, k))), key)
         == ReadsAs([line] + rest, us, key)
  {
    hide KeyOf, EntryLine, Without, Render, IsKey, OneLine, EntryOf;
    ValueIn(us, k);
    EntryLineReads(Entry(k, ValueFor(us, k)));
    WithoutKeeps(us, k);
    ParseHead(EntryLine(Entry(k, ValueFor(us, k))), Render(rest, Without(us, k)), key);
    ParseHead(line, rest, key);
    ParseCounts(rest, key);
    assert ([line] + rest)[1..] == rest;
  }

  function AsMap(us: seq<Entry>): map<string, string> { map k | k in Keys(us) :: ValueFor(us, k) }

  /** Editing then reading gives the old data overridden by the updates, exactly when no updated key
      has several lines whose last one disagrees with the update. */
  lemma EditThenRead(lines: seq<string>, us: seq<Entry>)
    requires WellFormed(us) && AllTrimmed(us)
    ensures Parse(Render(lines, us)) == Parse(lines) + AsMap(us)
       <==> forall k | k in Keys(us) && Count(lines, k) > 1 :: Get(Parse(lines), k) == Some(ValueFor(us, k))
  {
    hide Parse, Render, Count, WellFormed, AllTrimmed;
    var after, wanted := Parse(Render(lines, us)), Parse(lines) + AsMap(us);
    forall key ensures Get(after, key) == ReadsAs(lines, us, key) {
      RenderReads(lines, us, key);
    }
    forall k | k in Keys(us) ensures Get(wanted, k) == Some(ValueFor(us, k)) {
    }
    if forall k | k in Keys(us) && Count(lines, k) > 1 :: Get(Parse(lines), k) == Some(ValueFor(us, k)) {
      forall key ensures Get(after, key) == Get(wanted, key) {
      }
      SameGets(after, wanted);
    }
  }

  lemma SameGets(m: map<string, string>, n: map<string, string>)
    requires forall key :: Get(m, key) == Get(n, key)
    ensures m == n
  {
    forall key ensures key in m <==> key in n {
      assert Get(m, key) == Get(n, key);
    }
    forall key | key in m ensures m[key] == n[key] {
      assert Get(m, key) == Get(n, key);
    }
  }

  // ------------------------------------------------------------------ what stays in place

  /** Line `i` is the first line of an updated key. */
  ghost predicate IsReplaced(lines: seq<string>, i: nat, us: seq<Entry>)
    requires i < |lines|
  {
    KeyOf(lines[i]).Some? && KeyOf(lines[i]).value in Keys(us)
    && forall j | 0 <= j < i :: KeyOf(lines[j]) != KeyOf(lines[i])
  }

  ghost function LineAfter(lines: seq<string>, i: nat, us: seq<Entry>): string
    requires i < |lines|
  {
    if IsReplaced(lines, i, us) then
      EntryLine(Entry(KeyOf(lines[i]).value, ValueFor(us, KeyOf(lines[i]).value)))
    else lines[i]
  }

  /** Updates whose key has no line yet, in order. */
  function Missing(lines: seq<string>, us: seq<Entry>): seq<Entry> {
    if us == [] then []
    else (if Count(lines, us[0].key) == 0 then [us[0]] else []) + Missing(lines, us[1..])
  }

  lemma {:induction false} MissingNothing(us: seq<Entry>)
    ensures Missing([], us) == us
  {
    if us != [] {
      MissingNothing(us[1..]);
    }
  }

  lemma MissingHead(lines: seq<string>, u: Entry, us: seq<Entry>)
    ensures Missing(lines, [u] + us) == (if Count(lines, u.key) == 0 then [u] else []) + Missing(lines, us)
    ensures Count(lines, u.key) > 0 ==> Missing(lines, [u] + us) == Missing(lines, us)
  {
    hide Count;
    assert ([u] + us)[1..] == us;
    assert [] + Missing(lines, us) == Missing(lines, us);
  }

  lemma WithoutHead(u: Entry, us: seq<Entry>, key: string)
    ensures Without([u] + us, key) == if u.key == key then Without(us, key) else [u] + Without(us, key)
  {
    assert ([u] + us)[1..] == us;
    assert [] + Without(us, key) == Without(us, key);
  }

  lemma {:induction false} MissingStep(line: string, rest: seq<string>, us: seq<Entry>)
    ensures Missing([line] + rest, us)
         == if KeyOf(line).Some? then Missing(rest, Without(us, KeyOf(line).value)) else Missing(rest, us)
  {
    hide KeyOf, Missing;
    if us == [] {
      MissingOfNone([line] + rest);
      MissingOfNone(rest);
    } else {
      var u, us' := us[0], us[1..];
      assert us == [u] + us' && ([line] + rest)[1..] == rest;
      MissingStep(line, rest, us');
      MissingHead([line] + rest, u, us');
      MissingHead(rest, u, us');
      if KeyOf(line).Some? {
        var k := KeyOf(line).value;
        WithoutHead(u, us', k);
        MissingHead(rest, u, Without(us', k));
      }
    }
  }

  lemma MissingOfNone(lines: seq<string>)
    ensures Missing(lines, []) == []
  {
  }

  lemma {:induction false} WithoutAbsent(us: seq<Entry>, key: string)
    requires key !in Keys(us)
    ensures Without(us, key) == us
  {
    if us != [] {
      KeysHead(us);
      WithoutAbsent(us[1..], key);
    }
  }

  lemma LineAfterShift(line: string, rest: seq<string>, i: nat, us: seq<Entry>)
    requires i < |rest|
    ensures LineAfter([line] + rest, i + 1, us)
         == if KeyOf(line).Some? && KeyOf(line).value in Keys(us) then LineAfter(rest, i, Without(us, KeyOf(line).value))
            else LineAfter(rest, i, us)
  {
    hide KeyOf, EntryLine, Without, ValueFor;
    var lines := [line] + rest;
    ReplacedShift(line, rest, i, us);
    if KeyOf(line).Some? {
      WithoutKeeps(us, KeyOf(line).value);
    }
  }

  lemma ReplacedShift(line: string, rest: seq<string>, i: nat, us: seq<Entry>)
    requires i < |rest|
    ensures IsReplaced([line] + rest, i + 1, us) <==> KeyOf(rest[i]) != KeyOf(line) && IsReplaced(rest, i, us)
  {
    hide KeyOf, Keys;
    var lines := [line] + rest;
    assert lines[0] == line && forall j | 0 <= j < |rest| :: lines[j + 1] == rest[j];
    if IsReplaced(lines, i + 1, us) {
      assert KeyOf(lines[0]) != KeyOf(lines[i + 1]);
      forall j | 0 <= j < i ensures KeyOf(rest[j]) != KeyOf(rest[i]) {
        assert KeyOf(lines[j + 1]) != KeyOf(lines[i + 1]);
      }
    }
    if KeyOf(rest[i]) != KeyOf(line) && IsReplaced(rest, i, us) {
      forall j | 0 <= j < i + 1 ensures KeyOf(lines[j]) != KeyOf(lines[i + 1]) {
        if j > 0 {
          assert KeyOf(rest[j - 1]) != KeyOf(rest[i]);
        }
      }
    }
  }

  /** Every line stays where it is, as it is, except the first line of each updated key; the updates
      that had no line follow at the end, in their order. */
  lemma {:induction false} LinesKept(lines: seq<string>, us: seq<Entry>)
    ensures |Render(lines, us)| == |lines| + |Missing(lines, us)|
    ensures forall i | 0 <= i < |lines| :: Render(lines, us)[i] == LineAfter(lines, i, us)
    ensures Render(lines, us)[|lines|..] == EntryLines(Missing(lines, us))
    decreases |lines|
  {
    hide KeyOf, EntryLine, IsReplaced, LineAfter, Without, ValueFor;
    if lines == [] {
      MissingNothing(us);
      EntryLinesSize(us);
    } else {
      var line, rest := lines[0], lines[1..];
      assert lines == [line] + rest;
      MissingStep(line, rest, us);
      HeadLineAfter(lines, us);
      var replaced := KeyOf(line).Some? && KeyOf(line).value in Keys(us);
      if KeyOf(line).Some? && !replaced {
        WithoutAbsent(us, KeyOf(line).value);
      }
      var us' := if replaced then Without(us, KeyOf(line).value) else us;
      LinesKept(rest, us');
      forall i | 0 <= i < |rest| ensures LineAfter(lines, i + 1, us) == LineAfter(rest, i, us') {
        LineAfterShift(line, rest, i, us);
      }
      var r := Render(lines, us);
      assert r[1..] == Render(rest, us');
      assert r[|lines|..] == r[1..][|rest|..];
    }
  }

  lemma HeadLineAfter(lines: seq<string>, us: seq<Entry>)
    requires lines != []
    ensures LineAfter(lines, 0, us)
         == if KeyOf(lines[0]).Some? && KeyOf(lines[0]).value in Keys(us)
            then EntryLine(Entry(KeyOf(lines[0]).value, ValueFor(us, KeyOf(lines[0]).value))) else lines[0]
  {
    hide KeyOf, EntryLine;
  }

  lemma {:induction false} EntryLinesSize(us: seq<Entry>)
    ensures |EntryLines(us)| == |us|
  {
    if us != [] {
      EntryLinesSize(us[1..]);
    }
  }

  // ------------------------------------------------------------------ rendering twice

  lemma {:induction false} RenderOwnLines(us: seq<Entry>)
    requires WellFormed(us)
    ensures Render(EntryLines(us), us) == EntryLines(us)
  {
    if us != [] {
      var u, rest := us[0], us[1..];
      assert us == [u] + rest && u in us;
      RenderOwnLines(rest);
      EntryLineReads(u);
      hide KeyOf, EntryLine, IsKey, OneLine;
      KeysHead(us);
      assert u.key !in Keys(rest);
      WithoutAbsent(rest, u.key);
      assert Without(us, u.key) == rest;
      assert EntryLines(us)[1..] == EntryLines(rest);
    }
  }

  /** Rendering the same updates again changes no line. */
  lemma {:induction false} RenderTwice(lines: seq<string>, us: seq<Entry>)
    requires WellFormed(us)
    ensures Render(Render(lines, us), us) == Render(lines, us)
    decreases |lines|
  {
    if lines == [] {
      RenderOwnLines(us);
    } else {
      var line, rest := lines[0], lines[1..];
      var k := KeyOf(line);
      if k.Some? && k.value in Keys(us) {
        var e, us' := Entry(k.value, ValueFor(us, k.value)), Without(us, k.value);
        ValueIn(us, k.value);
        WithoutWellFormed(us, k.value);
        RenderTwice(rest, us');
        EntryLineReads(e);
        hide KeyOf, EntryLine, IsKey, OneLine, Without, ValueFor;
        assert ([EntryLine(e)] + Render(rest, us'))[1..] == Render(rest, us');
      } else {
        RenderTwice(rest, us);
        hide KeyOf;
        assert ([line] + Render(rest, us))[1..] == Render(rest, us);
      }
    }
  }

  // ------------------------------------------------------------------ texts

  ghost predicate AllOneLine(lines: seq<string>) { forall l | l in lines :: OneLine(l) }

  lemma {:induction false} BreakOf(line: string, rest: string)
    requires OneLine(line)
    ensures Break(line + "\n" + rest) == |line| && Break(line) == |line|
  {
    if line == "" {
      assert line + "\n" + rest == "\n" + rest;
    } else {
      assert line[0] in line;
      assert (line + "\n" + rest)[1..] == line[1..] + "\n" + rest;
      BreakOf(line[1..], rest);
    }
  }

  lemma LinesHead(line: string, rest: string)
    requires OneLine(line)
    ensures Lines(line + "\n" + rest) == [line] + Lines(rest)
    ensures Lines(line) == if line == "" then [] else [line]
  {
    BreakOf(line, rest);
    var text := line + "\n" + rest;
    assert text[..|line|] == line && text[|line| + 1..] == rest;
  }

  /** Joining lines and splitting again gives the lines back, with a final line break, or without
      one when the last line is not empty. */
  lemma {:induction false} SplitJoined(lines: seq<string>)
    requires AllOneLine(lines) && lines != []
    ensures Lines(Join(lines) + "\n") == lines
    ensures lines[|lines| - 1] != "" ==> Lines(Join(lines)) == lines
  {
    hide *;
    var line, rest := lines[0], lines[1..];
    assert lines == [line] + rest;
    ConsOneLine(line, rest);
    if rest == [] {
      JoinOne(line);
      LinesHead(line, "");
      LinesOfNothing();
      assert lines == [line] && [line] + [] == [line];
      assert line + "\n" + "" == line + "\n";
    } else {
      SplitJoined(rest);
      JoinHead(line, rest);
      LinesHead(line, Join(rest));
      LinesHead(line, Join(rest) + "\n");
      assert line + "\n" + Join(rest) + "\n" == line + "\n" + (Join(rest) + "\n");
    }
  }

  lemma ConsOneLine(line: string, rest: seq<string>)
    ensures AllOneLine([line] + rest) <==> OneLine(line) && AllOneLine(rest)
  {
    hide OneLine;
    assert forall l :: l in [line] + rest <==> l == line || l in rest;
  }

  lemma JoinOne(line: string)
    ensures Join([line]) == line
  {
  }

  lemma JoinHead(line: string, rest: seq<string>)
    requires rest != []
    ensures Join([line] + rest) == line + "\n" + Join(rest)
  {
    assert ([line] + rest)[1..] == rest;
  }

  lemma LinesOfNothing()
    ensures Lines("") == []
  {
  }

  lemma {:induction false} LinesAreLines(text: string)
    ensures AllOneLine(Lines(text))
    ensures text != "" ==> Lines(text) != []
    ensures text != "" && !EndsLine(text) ==> LastNonEmpty(Lines(text))
    decreases |text|
  {
    if text == "" {
    } else {
      var n := Break(text);
      if n == |text| {
        assert text[..n] == text;
      } else {
        var line, rest := text[..n], text[n + 1..];
        assert Lines(text) == [line] + Lines(rest);
        assert !EndsLine(text) ==> rest != "" && !EndsLine(rest);
        LinesAreLines(rest);
        hide *;
        ConsOneLine(line, Lines(rest));
        ConsLast(line, Lines(rest));
      }
    }
  }

  lemma ConsLast(line: string, rest: seq<string>)
    ensures LastNonEmpty([line] + rest) <==> if rest == [] then line != "" else LastNonEmpty(rest)
  {
  }

  ghost predicate LastNonEmpty(lines: seq<string>) { lines != [] && lines[|lines| - 1] != "" }

  lemma {:induction false} RenderedLines(lines: seq<string>, us: seq<Entry>)
    requires AllOneLine(lines) && WellFormed(us)
    ensures AllOneLine(Render(lines, us)) && |Render(lines, us)| >= |lines|
    ensures LastNonEmpty(lines) ==> LastNonEmpty(Render(lines, us))
    decreases |lines|
  {
    if lines == [] {
      EntryLinesOneLine(us);
    } else {
      var line, rest := lines[0], lines[1..];
      assert lines == [line] + rest && line in lines;
      assert forall l | l in rest :: l in lines;
      var k := KeyOf(line);
      var replaced := k.Some? && k.value in Keys(us);
      var line' := if replaced then EntryLine(Entry(k.value, ValueFor(us, k.value))) else line;
      var us' := if replaced then Without(us, k.value) else us;
      if replaced {
        ValueIn(us, k.value);
        WithoutWellFormed(us, k.value);
        EntryLineIsOneLine(Entry(k.value, ValueFor(us, k.value)));
      }
      RenderedLines(rest, us');
      EntryLinesOneLine(us');
      NothingLeft(us');
      ConsOneLine(line, rest);
      ConsLast(line, rest);
      ConsOneLine(line', Render(rest, us'));
      ConsLast(line', Render(rest, us'));
      assert Render(lines, us) == [line'] + Render(rest, us');
      hide *;
    }
  }

  lemma {:induction false} EntryLinesOneLine(us: seq<Entry>)
    requires WellFormed(us)
    ensures AllOneLine(EntryLines(us)) && |EntryLines(us)| == |us|
    ensures us != [] ==> LastNonEmpty(EntryLines(us))
  {
    if us != [] {
      assert us[0] in us;
      assert forall u | u in us[1..] :: u in us;
      EntryLinesOneLine(us[1..]);
      EntryLineIsOneLine(us[0]);
    }
  }

  /** The rendered text has exactly the rendered lines, and the last line break stays as it was. */
  lemma RenderTextLines(text: string, us: seq<Entry>)
    requires WellFormed(us)
    ensures text != "" || us != [] ==> Lines(RenderText(text, us)) == Render(Lines(text), us)
    ensures Parse(Lines(RenderText(text, us))) == Parse(Render(Lines(text), us))
    ensures EndsLine(RenderText(text, us)) <==> EndsLine(text) || text == ""
    ensures RenderText(text, us) != ""
  {
    hide *;
    var lines := Lines(text);
    var out := Render(lines, us);
    LinesAreLines(text);
    RenderedLines(lines, us);
    RenderTextIs(text, us);
    if out == [] {
      NoLines(text, us);
    } else {
      SplitJoined(out);
      LastOfJoin(out);
      EndsWithBreak(Join(out));
      NonEmptyLast(lines);
      NonEmptyLast(out);
      EmptyText();
    }
  }

  lemma EmptyText()
    ensures Lines("") == [] && !EndsLine("")
  {
  }

  lemma EndsWithBreak(s: string)
    ensures EndsLine(s + "\n") && s + "\n" != ""
  {
  }

  lemma NonEmptyLast(lines: seq<string>)
    ensures LastNonEmpty(lines) <==> lines != [] && lines[|lines| - 1] != ""
  {
  }

  lemma RenderTextIs(text: string, us: seq<Entry>)
    ensures RenderText(text, us) == if EndsLine(text) || text == "" then Join(Render(Lines(text), us)) + "\n"
                                    else Join(Render(Lines(text), us))
  {
    hide Join, Render, Lines;
    assert Join(Render(Lines(text), us)) + "" == Join(Render(Lines(text), us));
  }

  lemma NoLines(text: string, us: seq<Entry>)
    requires Render(Lines(text), us) == [] && (text != "" ==> Lines(text) != []) && |Render(Lines(text), us)| >= |Lines(text)|
    ensures text == "" && us == [] && RenderText(text, us) == "\n"
    ensures Parse(Lines("\n")) == Parse([]) && EndsLine("\n")
  {
    assert text == "";
    assert Lines("\n") == [""] by {
      LinesHead("", "");
      assert "" + "\n" + "" == "\n";
    }
    EntryLinesSize(us);
  }

  lemma {:induction false} LastOfJoin(lines: seq<string>)
    requires lines != [] && AllOneLine(lines)
    ensures lines[|lines| - 1] != "" ==> !EndsLine(Join(lines)) && Join(lines) != ""
  {
    assert lines[0] in lines;
    if |lines| > 1 {
      assert forall l | l in lines[1..] :: l in lines;
      LastOfJoin(lines[1..]);
    } else if lines[0] != "" {
      assert lines[0][|lines[0]| - 1] in lines[0];
    }
  }

  /** Rendering the updates into a text and reading it gives the old data overridden by them, exactly
      when no updated key has several lines whose last one disagrees with the update. */
  lemma RoundTrip(text: string, us: seq<Entry>)
    requires WellFormed(us) && AllTrimmed(us)
    ensures Parse(Lines(RenderText(text, us))) == Parse(Lines(text)) + AsMap(us)
       <==> forall k | k in Keys(us) && Count(Lines(text), k) > 1 :: Get(Parse(Lines(text)), k) == Some(ValueFor(us, k))
  {
    hide *;
    RenderTextLines(text, us);
    EditThenRead(Lines(text), us);
  }

  const TWICE := "leverage: 1\nleverage: 2"
  const TO_THREE := [Entry("leverage", "3")]

  lemma TwoLines(a: Entry, b: Entry)
    requires IsKey(a.key) && OneLine(a.value) && IsKey(b.key) && OneLine(b.value)
    ensures Lines(EntryLine(a) + "\n" + EntryLine(b)) == [EntryLine(a), EntryLine(b)]
  {
    hide EntryLine, Lines;
    EntryLineIsOneLine(a);
    EntryLineIsOneLine(b);
    LinesHead(EntryLine(a), EntryLine(b));
    LinesHead(EntryLine(b), "");
    assert [EntryLine(a)] + [EntryLine(b)] == [EntryLine(a), EntryLine(b)];
  }

  lemma CountTwo(first: string, second: string, key: string)
    requires KeyOf(first) == KeyOf(second) == Some(key)
    ensures Count([first, second], key) == 2
  {
    hide KeyOf;
    assert [first, second][1..] == [second] && [second][1..] == [];
    assert Count([], key) == 0 && Count([second], key) == 1;
  }

  lemma ReadTwoLines(a: Entry, b: Entry)
    requires IsKey(a.key) && b.key == a.key && Trimmed(b.value)
    ensures Get(Parse([EntryLine(a), EntryLine(b)]), a.key) == Some(b.value)
    ensures Count([EntryLine(a), EntryLine(b)], a.key) == 2
  {
    hide EntryLine, EntryOf, IsComment;
    EntryLineReads(a);
    EntryLineReads(b);
    ParseHead(EntryLine(b), [], a.key);
    ParseHead(EntryLine(a), [EntryLine(b)], a.key);
    assert [EntryLine(b)] + [] == [EntryLine(b)] && [EntryLine(a)] + [EntryLine(b)] == [EntryLine(a), EntryLine(b)];
    CountTwo(EntryLine(a), EntryLine(b), a.key);
  }

  lemma TwiceIsTwoLines()
    ensures Lines(TWICE) == [EntryLine(Entry("leverage", "1")), EntryLine(Entry("leverage", "2"))]
    ensures Get(Parse(Lines(TWICE)), "leverage") == Some("2") && Count(Lines(TWICE), "leverage") == 2
  {
    hide Lines, Parse, Count;
    var a, b := Entry("leverage", "1"), Entry("leverage", "2");
    assert EntryLine(a) + "\n" + EntryLine(b) == TWICE;
    TwoLines(a, b);
    ReadTwoLines(a, b);
  }

  /** A file that sets a key twice still reads the old value after an update. */
  lemma UpdateLost()
    ensures WellFormed(TO_THREE) && AllTrimmed(TO_THREE)
    ensures Get(Parse(Lines(RenderText(TWICE, TO_THREE))), "leverage") == Some("2")
    ensures Parse(Lines(RenderText(TWICE, TO_THREE))) != Parse(Lines(TWICE)) + AsMap(TO_THREE)
  {
    assert WellFormed(TO_THREE) && AllTrimmed(TO_THREE);
    assert "leverage" in Keys(TO_THREE) && ValueFor(TO_THREE, "leverage") == "3";
    hide *;
    TwiceIsTwoLines();
    RenderTextLines(TWICE, TO_THREE);
    RenderReads(Lines(TWICE), TO_THREE, "leverage");
    ReadsOld(Lines(TWICE), TO_THREE, "leverage");
    RoundTrip(TWICE, TO_THREE);
  }

  lemma ReadsOld(lines: seq<string>, us: seq<Entry>, key: string)
    requires Count(lines, key) > 1
    ensures ReadsAs(lines, us, key) == Get(Parse(lines), key)
  {
    hide Parse, Count, Keys, ValueFor;
  }

  /** Rendering a text twice is rendering it once. */
  lemma RenderTextTwice(text: string, us: seq<Entry>)
    requires WellFormed(us)
    ensures RenderText(RenderText(text, us), us) == RenderText(text, us)
  {
    RenderTextLines(text, us);
    RenderTwice(Lines(text), us);
    if text == "" && us == [] {
      EmptyTwice();
    } else {
      hide Render, Lines, WellFormed, EndsLine;
      SecondTime(text, us);
    }
  }

  lemma SecondTime(text: string, us: seq<Entry>)
    requires Lines(RenderText(text, us)) == Render(Lines(text), us)
    requires Render(Render(Lines(text), us), us) == Render(Lines(text), us)
    requires EndsLine(RenderText(text, us)) <==> EndsLine(text) || text == ""
    requires RenderText(text, us) != ""
    ensures RenderText(RenderText(text, us), us) == RenderText(text, us)
  {
    hide *;
    RenderTextIs(text, us);
    RenderTextIs(RenderText(text, us), us);
  }

  lemma EmptyTwice()
    ensures RenderText("", []) == "\n" == RenderText("\n", [])
  {
    LinesHead("", "");
    assert "" + "\n" + "" == "\n";
    assert Lines("\n") == [""];
    assert KeyOf("").None?;
    assert Render([""], []) == [""] + Render([], []);
  }
}
