/** The flat `key: value` editor: reading, and rewriting lines in place. */
module FlatYaml {
  import opened Results

  // ------------------------------------------------------------------ characters and lines

  predicate IsSpace(c: char) { c == ' ' || c == '\t' }
  predicate IsKeyStart(c: char) { 'A' <= c <= 'Z' || 'a' <= c <= 'z' || c == '_' }
  predicate IsKeyChar(c: char) { IsKeyStart(c) || '0' <= c <= '9' }

  function TrimLeft(s: string): string { if s != [] && IsSpace(s[0]) then TrimLeft(s[1..]) else s }
  function TrimRight(s: string): string { if s != [] && IsSpace(s[|s| - 1]) then TrimRight(s[..|s| - 1]) else s }
  function Trim(s: string): string { TrimRight(TrimLeft(s)) }

  predicate OneLine(s: string) { '\n' !in s }

  /** Where the first line ends. */
  function Break(s: string): (n: nat)
    ensures n <= |s| && OneLine(s[..n]) && (n < |s| ==> s[n] == '\n')
  {
    if s == [] || s[0] == '\n' then 0 else
      var n := 1 + Break(s[1..]);
      assert s[..n] == [s[0]] + s[1..][..n - 1];
      n
  }

  /** `splitlines`: no empty line after a final line break. */
  function Lines(text: string): seq<string>
    decreases |text|
  {
    if text == [] then []
    else
      var n := Break(text);
      if n == |text| then [text] else [text[..n]] + Lines(text[n + 1..])
  }

  function Join(lines: seq<string>): string {
    if lines == [] then "" else if |lines| == 1 then lines[0] else lines[0] + "\n" + Join(lines[1..])
  }

  predicate EndsLine(text: string) { text != [] && text[|text| - 1] == '\n' }

  // ------------------------------------------------------------------ entries

  datatype Entry = Entry(key: string, value: string)

  function KeyLength(s: string): (n: nat)
    ensures n <= |s|
  {
    if s == [] || !IsKeyChar(s[0]) then 0 else 1 + KeyLength(s[1..])
  }

  /** The line pattern: a key at the very start, a colon, and a value without the blanks around it. */
  function EntryOf(line: string): Option<Entry> {
    var n := KeyLength(line);
    if line == [] || !IsKeyStart(line[0]) || n == |line| || line[n] != ':' then None
    else Some(Entry(line[..n], Trim(line[n + 1..])))
  }

  predicate IsComment(line: string) { var s := TrimLeft(line); s != [] && s[0] == '#' }

  function KeyOf(line: string): Option<string> {
    if EntryOf(line).Some? && !IsComment(line) then Some(EntryOf(line).value.key) else None
  }

  function EntryLine(e: Entry): string { e.key + ": " + e.value }

  // ------------------------------------------------------------------ reading

  function One(line: string): map<string, string> {
    if KeyOf(line).Some? then map[EntryOf(line).value.key := EntryOf(line).value.value] else map[]
  }

  /** Later lines win. */
  function Parse(lines: seq<string>): map<string, string> {
    if lines == [] then map[] else One(lines[0]) + Parse(lines[1..])
  }

  method ParseFlatYaml(text: string) returns (data: map<string, string>)
    ensures data == Parse(Lines(text))
  {
    hide *;
    var lines := Lines(text);
    data := map[];
    NothingParsed(lines);
    for i := 0 to |lines|
      invariant data == Parse(lines[..i])
    {
      ParseStep(lines, i);
      var entry := EntryOf(lines[i]);
      OneOf(data, lines[i]);
      if entry.Some? && !IsComment(lines[i]) {
        data := data[entry.value.key := entry.value.value];
      }
    }
    assert lines[..|lines|] == lines;
  }

  lemma NothingParsed(lines: seq<string>)
    ensures Parse(lines[..0]) == map[]
  {
  }

  lemma OneOf(data: map<string, string>, line: string)
    ensures data + One(line)
         == if EntryOf(line).Some? && !IsComment(line) then data[EntryOf(line).value.key := EntryOf(line).value.value]
            else data
  {
    hide EntryOf, IsComment;
  }

  lemma ParseStep(lines: seq<string>, i: nat)
    requires i < |lines|
    ensures Parse(lines[..i + 1]) == Parse(lines[..i]) + One(lines[i])
  {
    assert lines[..i + 1] == lines[..i] + [lines[i]];
    ParseSnoc(lines[..i], lines[i]);
  }

  lemma {:induction false} ParseSnoc(lines: seq<string>, line: string)
    ensures Parse(lines + [line]) == Parse(lines) + One(line)
  {
    hide One;
    if lines == [] {
      assert lines + [line] == [line] && [line][1..] == [];
    } else {
      assert (lines + [line])[1..] == lines[1..] + [line];
      ParseSnoc(lines[1..], line);
      Reassociated(One(lines[0]), Parse(lines[1..]), One(line));
    }
  }

  lemma Reassociated(a: map<string, string>, b: map<string, string>, c: map<string, string>)
    ensures a + (b + c) == a + b + c
  {
  }

  // ------------------------------------------------------------------ rewriting

  function Keys(us: seq<Entry>): set<string> { set u | u in us :: u.key }

  function ValueFor(us: seq<Entry>, key: string): string
    requires key in Keys(us)
  {
    if us[0].key == key then us[0].value else ValueFor(us[1..], key)
  }

  function Without(us: seq<Entry>, key: string): seq<Entry> {
    if us == [] then [] else (if us[0].key == key then [] else [us[0]]) + Without(us[1..], key)
  }

  function EntryLines(us: seq<Entry>): seq<string> {
    if us == [] then [] else [EntryLine(us[0])] + EntryLines(us[1..])
  }

  /** The first line of each updated key is replaced; keys without a line are added at the end. */
  function Render(lines: seq<string>, us: seq<Entry>): seq<string>
    decreases |lines|
  {
    if lines == [] then EntryLines(us)
    else
      var key := KeyOf(lines[0]);
      if key.Some? && key.value in Keys(us)
      then [EntryLine(Entry(key.value, ValueFor(us, key.value)))] + Render(lines[1..], Without(us, key.value))
      else [lines[0]] + Render(lines[1..], us)
  }

  function RenderText(text: string, us: seq<Entry>): string {
    Join(Render(Lines(text), us)) + if EndsLine(text) || text == "" then "\n" else ""
  }

  lemma RenderHead(line: string, rest: seq<string>, us: seq<Entry>)
    ensures var key := KeyOf(line);
            Render([line] + rest, us)
            == if key.Some? && key.value in Keys(us)
               then [EntryLine(Entry(key.value, ValueFor(us, key.value)))] + Render(rest, Without(us, key.value))
               else [line] + Render(rest, us)
  {
    hide KeyOf, EntryLine, Keys, Without, ValueFor;
    assert ([line] + rest)[1..] == rest;
  }

  method RenderUpdates(text: string, updates: seq<Entry>) returns (body: string)
    ensures body == RenderText(text, updates)
  {
    hide Render, EntryOf, IsComment, EntryLine, Without, ValueFor, EndsLine, Join, EntryLines, Lines;
    var remaining, lines := updates, Lines(text);
    var out: seq<string> := [];
    for i := 0 to |lines|
      invariant out + Render(lines[i..], remaining) == Render(lines, updates)
    {
      assert lines[i..] == [lines[i]] + lines[i + 1..];
      var added: string;
      added, remaining := RenderLine(lines[i], lines[i + 1..], remaining);
      out := out + [added];
    }
    assert lines[|lines|..] == [];
    NothingLeft(remaining);
    body := Join(out + EntryLines(remaining));
    if EndsLine(text) || text == "" {
      body := body + "\n";
    }
  }

  lemma NothingLeft(us: seq<Entry>)
    ensures Render([], us) == EntryLines(us)
  {
  }

  /** What becomes of one line, and the updates still to be placed in the rest. */
  method RenderLine(line: string, ghost rest: seq<string>, us: seq<Entry>)
    returns (added: string, remaining: seq<Entry>)
    ensures Render([line] + rest, us) == [added] + Render(rest, remaining)
  {
    hide EntryOf, IsComment, EntryLine, Without, ValueFor, Keys, Render;
    RenderHead(line, rest, us);
    var entry := EntryOf(line);
    if entry.Some? && entry.value.key in Keys(us) && !IsComment(line) {
      var key := entry.value.key;
      return EntryLine(Entry(key, ValueFor(us, key))), Without(us, key);
    }
    return line, us;
  }
}
