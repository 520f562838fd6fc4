/** Saving a form once puts the values into the files; saving it again writes nothing. */
module StrategyLaws {
  import opened Results
  import opened FlatYaml
  import opened FlatYamlLaws
  import opened StrategyConfig

  // ------------------------------------------------------------------ clean values

  predicate Plain(s: string) { forall c | c in s :: !IsSpace(c) && c != '\n' }

  lemma {:induction false} PlainUntouched(s: string)
    requires Plain(s)
    ensures Trimmed(s) && OneLine(s)
  {
    if s != [] {
      assert s[0] in s && s[|s| - 1] in s;
    }
  }

  ghost predicate Clean(s: string) { OneLine(s) && Trimmed(s) }

  /** Rendered decimals are trimmed and on one line. */
  ghost predicate Sound(d: Decimals) {
    forall t: string | d.read(t).Some? :: Clean(d.show(t))
  }

  predicate CleanKind(kind: Kind) { kind.Choice? ==> forall o | o in kind.options :: Plain(o) }
  ghost predicate CleanFields(fields: seq<Field>) { forall f | f in fields :: IsKey(f.key) && CleanKind(f.kind) }

  lemma {:induction false} ShowNatPlain(n: nat)
    ensures Plain(ShowNat(n))
  {
    if n >= 10 {
      ShowNatPlain(n / 10);
    }
  }

  lemma ShowIntPlain(n: int)
    ensures Plain(ShowInt(n))
  {
    if n < 0 {
      ShowNatPlain(-n);
    } else {
      ShowNatPlain(n);
    }
  }

  function LastDigit(n: nat): char { (n % 10 + '0' as int) as char }

  lemma LastDigitReads(n: nat)
    ensures IsDigit(LastDigit(n)) && DigitOf(LastDigit(n)) == n % 10
  {
  }

  lemma ShowNatParts(n: nat)
    ensures ShowNat(n) == (if n < 10 then [] else ShowNat(n / 10)) + [LastDigit(n)]
  {
  }

  lemma DigitsSnoc(s: string, c: char)
    requires (forall x | x in s :: IsDigit(x)) && IsDigit(c)
    ensures forall x | x in s + [c] :: IsDigit(x)
    ensures Digits(s + [c]) == 10 * Digits(s) + DigitOf(c)
  {
    hide IsDigit;
    assert (s + [c])[..|s|] == s;
  }

  lemma {:induction false} ShowNatReads(n: nat)
    ensures ShowNat(n) != [] && (forall c | c in ShowNat(n) :: IsDigit(c)) && Digits(ShowNat(n)) == n
  {
    hide ShowNat, IsDigit, DigitOf, LastDigit;
    ShowNatParts(n);
    LastDigitReads(n);
    if n < 10 {
      DigitsSnoc([], LastDigit(n));
    } else {
      ShowNatReads(n / 10);
      DigitsSnoc(ShowNat(n / 10), LastDigit(n));
    }
  }

  /** A printed integer reads back as itself, so the checks across fields compare the submitted numbers. */
  lemma ShowIntReads(n: int)
    ensures IsIntText(ShowInt(n)) && IntOf(ShowInt(n)) == n
  {
    hide ShowNat, Digits;
    if n < 0 {
      ShowNatReads(-n);
      assert ("-" + ShowNat(-n))[1..] == ShowNat(-n);
    } else {
      ShowNatReads(n);
      var s := ShowNat(n);
      assert s[0] in s && IsDigit(s[0]);
    }
  }

  lemma SwitchPlain()
    ensures Plain("true") && Plain("false")
  {
  }

  lemma NormalizedClean(kind: Kind, raw: string, d: Decimals)
    requires Sound(d) && CleanKind(kind) && NormalizeValue(kind, raw, d).Ok?
    ensures Clean(NormalizeValue(kind, raw, d).value)
  {
    hide Plain, OneLine, Trim, Strip, Lower, IsIntText, IntOf, ShowInt;
    var value := NormalizeValue(kind, raw, d).value;
    SwitchPlain();
    if kind.Integer? {
      ShowIntPlain(IntOf(Strip(raw)));
    }
    if !kind.Number? {
      PlainUntouched(value);
    }
  }

  // ------------------------------------------------------------------ the value lists

  ghost predicate CleanValues(es: seq<Entry>) {
    DistinctKeys(es) && forall e | e in es :: IsKey(e.key) && Clean(e.value)
  }

  /** Clean lists, read head by head. */
  lemma ConsClean(e: Entry, rest: seq<Entry>)
    ensures CleanValues([e] + rest) <==> IsKey(e.key) && Clean(e.value) && CleanValues(rest) && e.key !in Keys(rest)
    ensures Keys([e] + rest) == {e.key} + Keys(rest)
  {
    hide IsKey, Clean;
    var es := [e] + rest;
    KeysHead(es);
    assert es[1..] == rest;
    if CleanValues(es) {
      assert es[0] in es;
      assert forall x | x in rest :: x in es;
      forall i, j | 0 <= i < j < |rest| ensures rest[i].key != rest[j].key {
        assert es[i + 1].key != es[j + 1].key;
      }
    }
    if CleanValues(rest) && e.key !in Keys(rest) {
      ConsDistinct(e, rest);
    }
  }

  lemma {:induction false} PutKeeps(es: seq<Entry>, key: string, value: string)
    requires CleanValues(es) && IsKey(key) && Clean(value)
    ensures CleanValues(Put(es, key, value))
    ensures Keys(Put(es, key, value)) == Keys(es) + {key}
  {
    hide IsKey, Clean, CleanValues, Keys;
    if es == [] {
      NoValues();
      ConsClean(Entry(key, value), []);
      assert [Entry(key, value)] + [] == [Entry(key, value)];
    } else {
      var e, rest := es[0], es[1..];
      assert es == [e] + rest;
      ConsClean(e, rest);
      if e.key == key {
        ConsClean(Entry(key, value), rest);
      } else {
        PutKeeps(rest, key, value);
        ConsClean(e, Put(rest, key, value));
      }
    }
  }

  lemma NoValues()
    ensures CleanValues([]) && Keys([]) == {}
  {
  }

  lemma ConsDistinct(e: Entry, rest: seq<Entry>)
    requires DistinctKeys(rest) && e.key !in Keys(rest)
    ensures DistinctKeys([e] + rest)
  {
    assert forall i | 0 <= i < |rest| :: rest[i] in rest;
  }

  lemma {:induction false} MergeKeeps(es: seq<Entry>, more: seq<Entry>)
    requires CleanValues(es) && forall e | e in more :: IsKey(e.key) && Clean(e.value)
    ensures CleanValues(Merge(es, more))
    decreases |more|
  {
    hide IsKey, Clean, Put;
    if more != [] {
      assert more[0] in more;
      assert forall e | e in more[1..] :: e in more;
      PutKeeps(es, more[0].key, more[0].value);
      MergeKeeps(Put(es, more[0].key, more[0].value), more[1..]);
    }
  }

  lemma {:induction false} NormalizedFieldsClean(source: map<string, string>, fields: seq<Field>, d: Decimals)
    requires Sound(d) && CleanFields(fields) && NormalizeFields(source, fields, d).Ok?
    ensures CleanValues(NormalizeFields(source, fields, d).value)
  {
    hide IsKey, Clean, CleanKind, NormalizeValue, Put, Sound;
    if fields != [] {
      var n := |fields| - 1;
      assert fields[n] in fields;
      assert forall f | f in fields[..n] :: f in fields;
      NormalizedFieldsClean(source, fields[..n], d);
      NormalizedClean(fields[n].kind, Raw(source, fields[n].key).value, d);
      PutKeeps(NormalizeFields(source, fields[..n], d).value, fields[n].key,
               NormalizeValue(fields[n].kind, Raw(source, fields[n].key).value, d).value);
    }
  }

  // ------------------------------------------------------------------ the tables

  lemma IntervalsPlain()
    ensures forall o | o in INTERVALS :: Plain(o)
  {
  }

  lemma FirstPairKeys()
    ensures IsKey("leverage") && IsKey("total_amount_quote")
  {
  }

  lemma LastPairKeys()
    ensures IsKey("take_profit_quote") && IsKey("fixed_unrealized_tp_quote")
  {
  }

  lemma PairFieldsClean()
    ensures CleanFields(PAIR_FIELDS)
  {
    hide IsKey, Plain;
    FirstPairKeys();
    LastPairKeys();
  }

  lemma FirstSignalKeys()
    ensures IsKey("candles_interval") && IsKey("mean_window") && IsKey("entry_z_score")
  {
  }

  lemma LastSignalKeys()
    ensures IsKey("max_entry_z_score") && IsKey("exit_z_score")
  {
  }

  lemma SignalFieldsClean()
    ensures CleanFields(SIGNAL_FIELDS)
  {
    hide IsKey, Plain;
    IntervalsPlain();
    FirstSignalKeys();
    LastSignalKeys();
  }

  lemma FirstStopKeys()
    ensures IsKey("min_std_pct") && IsKey("atr_length") && IsKey("atr_stop_multiplier")
  {
  }

  lemma LastStopKeys()
    ensures IsKey("min_stop_loss") && IsKey("max_stop_loss")
  {
  }

  lemma StopFieldsClean()
    ensures CleanFields(STOP_FIELDS)
  {
    hide IsKey, Plain;
    FirstStopKeys();
    LastStopKeys();
  }

  lemma FirstCostKeys()
    ensures IsKey("round_trip_cost_pct") && IsKey("min_net_edge_pct") && IsKey("min_reward_risk")
  {
  }

  lemma LastCostKeys()
    ensures IsKey("quote_offset_pct") && IsKey("max_bid_ask_spread_pct")
  {
  }

  lemma CostFieldsClean()
    ensures CleanFields(COST_FIELDS)
  {
    hide IsKey, Plain;
    FirstCostKeys();
    LastCostKeys();
  }

  lemma FirstTimeKeys()
    ensures IsKey("executor_refresh_time") && IsKey("cooldown_time") && IsKey("stop_loss_cooldown_time")
  {
  }

  lemma LastTimeKeys()
    ensures IsKey("time_limit") && IsKey("manual_kill_switch")
  {
  }

  lemma TimeFieldsClean()
    ensures CleanFields(TIME_FIELDS)
  {
    hide IsKey, Plain;
    FirstTimeKeys();
    LastTimeKeys();
  }

  lemma SharedFieldsClean()
    ensures CleanFields(SHARED_FIELDS)
  {
    SignalFieldsClean();
    StopFieldsClean();
    CostFieldsClean();
    TimeFieldsClean();
    hide IsKey, Plain, CleanKind;
    assert forall f | f in SHARED_FIELDS :: f in SIGNAL_FIELDS || f in STOP_FIELDS || f in COST_FIELDS || f in TIME_FIELDS;
  }

  // ------------------------------------------------------------------ values read from a file

  lemma {:induction false} TrimLeftPart(s: string)
    ensures (OneLine(s) ==> OneLine(TrimLeft(s))) && (TrimLeft(s) != [] ==> !IsSpace(TrimLeft(s)[0]))
  {
    if s != [] && IsSpace(s[0]) {
      TrimLeftPart(s[1..]);
    }
  }

  lemma {:induction false} TrimRightPart(s: string)
    ensures (OneLine(s) ==> OneLine(TrimRight(s))) && TrimRight(s) <= s
    ensures TrimRight(s) != [] ==> !IsSpace(TrimRight(s)[|TrimRight(s)| - 1])
  {
    if s != [] && IsSpace(s[|s| - 1]) {
      TrimRightPart(s[..|s| - 1]);
    }
  }

  lemma TrimClean(s: string)
    requires OneLine(s)
    ensures Clean(Trim(s))
  {
    TrimLeftPart(s);
    TrimRightPart(TrimLeft(s));
    var t := Trim(s);
    if t != [] {
      assert t[0] == TrimLeft(s)[0];
    }
  }

  lemma {:induction false} ParsedClean(lines: seq<string>, key: string)
    requires AllOneLine(lines) && key in Parse(lines)
    ensures Clean(Parse(lines)[key])
  {
    hide Clean;
    var line, rest := lines[0], lines[1..];
    assert lines == [line] + rest;
    ConsOneLine(line, rest);
    ParseHead(line, rest, key);
    if key in Parse(rest) {
      ParsedClean(rest, key);
    } else {
      TrimClean(line[KeyLength(line) + 1..]);
    }
  }

  // ------------------------------------------------------------------ spelling

  /** A text in a file stays exactly when it is the submitted text or reads as the same number. */
  lemma SpellingTerms(previous: string, value: string, d: Decimals)
    ensures (previous == value || (d.read(previous).Some? && d.read(value) == d.read(previous)))
       <==> Agrees(Some(previous), value, d)
    ensures PreserveSpelling(None, value, d) == value && !Agrees(None, value, d)
    ensures PreserveSpelling(Some(previous), value, d)
         == if previous != value && (d.read(previous).None? || d.read(value).None? || d.read(previous) != d.read(value))
            then value else previous
  {
  }

  lemma PreserveTwice(previous: Option<string>, value: string, d: Decimals)
    ensures PreserveSpelling(Some(PreserveSpelling(previous, value, d)), value, d) == PreserveSpelling(previous, value, d)
  {
  }

  lemma {:induction false} SpelledKeys(original: map<string, string>, values: seq<Entry>, d: Decimals)
    ensures Keys(Spelled(original, values, d)) == Keys(values)
    ensures forall k | k in Keys(values) ::
              ValueFor(Spelled(original, values, d), k) == PreserveSpelling(Get(original, k), ValueFor(values, k), d)
  {
    hide PreserveSpelling;
    if values != [] {
      var v, rest := values[0], values[1..];
      SpelledKeys(original, rest, d);
      var spelled := Spelled(original, rest, d);
      var head := Entry(v.key, PreserveSpelling(Get(original, v.key), v.value, d));
      assert ([head] + spelled)[1..] == spelled;
      KeysHead(values);
      KeysHead([head] + spelled);
    }
  }

  lemma {:induction false} SpelledClean(original: map<string, string>, values: seq<Entry>, d: Decimals)
    requires CleanValues(values) && forall k | k in original :: Clean(original[k])
    ensures CleanValues(Spelled(original, values, d))
  {
    hide IsKey, Clean, CleanValues, Keys;
    if values == [] {
      NoValues();
    } else {
      var v, rest := values[0], values[1..];
      assert values == [v] + rest;
      ConsClean(v, rest);
      SpelledClean(original, rest, d);
      SpelledKeys(original, rest, d);
      var head := Entry(v.key, PreserveSpelling(Get(original, v.key), v.value, d));
      ConsClean(head, Spelled(original, rest, d));
    }
  }

  lemma CleanIsWellFormed(es: seq<Entry>)
    requires CleanValues(es)
    ensures WellFormed(es) && AllTrimmed(es)
  {
    hide IsKey, OneLine, Trim;
  }

  /** Two spellings of the same values agree when they agree key by key. */
  lemma {:induction false} SpelledSame(a: map<string, string>, b: map<string, string>, values: seq<Entry>, d: Decimals)
    requires forall e | e in values :: PreserveSpelling(Get(a, e.key), e.value, d) == PreserveSpelling(Get(b, e.key), e.value, d)
    ensures Spelled(a, values, d) == Spelled(b, values, d)
  {
    hide PreserveSpelling;
    if values != [] {
      assert values[0] in values;
      assert forall e | e in values[1..] :: e in values;
      SpelledSame(a, b, values[1..], d);
    }
  }

  lemma {:induction false} ValueForEntry(es: seq<Entry>, e: Entry)
    requires CleanValues(es) && e in es
    ensures e.key in Keys(es) && ValueFor(es, e.key) == e.value
  {
    hide IsKey, Clean, CleanValues;
    var h, rest := es[0], es[1..];
    assert es == [h] + rest;
    ConsClean(h, rest);
    if e != h {
      ValueForEntry(rest, e);
    }
  }

  /** Reading a saved file gives, for every field, what a second save would write there again. */
  lemma SpelledAgain(text: string, values: seq<Entry>, d: Decimals)
    requires CleanValues(values)
    ensures Spelled(Parse(Lines(Updated(text, values, d))), values, d) == Spelled(Parse(Lines(text)), values, d)
  {
    var lines := Lines(text);
    var original := Parse(lines);
    var us := Spelled(original, values, d);
    TextSpelling(text, values, d);
    hide PreserveSpelling, Render, RenderText, Lines, Parse, Spelled, CleanValues, WellFormed, AllTrimmed, Keys, ValueFor, Count;
    SpelledKeys(original, values, d);
    RenderTextLines(text, us);
    var after := Parse(Lines(Updated(text, values, d)));
    assert after == Parse(Render(lines, us));
    forall e | e in values
      ensures PreserveSpelling(Get(after, e.key), e.value, d) == PreserveSpelling(Get(original, e.key), e.value, d)
    {
      ValueForEntry(values, e);
      RenderReads(lines, us, e.key);
      PreserveTwice(Get(original, e.key), e.value, d);
    }
    SpelledSame(after, original, values, d);
  }

  lemma TextSpelling(text: string, values: seq<Entry>, d: Decimals)
    requires CleanValues(values)
    ensures var us := Spelled(Parse(Lines(text)), values, d); CleanValues(us) && WellFormed(us) && AllTrimmed(us)
  {
    hide CleanValues, WellFormed, AllTrimmed, Clean, Parse, Lines, Spelled;
    LinesAreLines(text);
    forall k | k in Parse(Lines(text)) ensures Clean(Parse(Lines(text))[k]) {
      ParsedClean(Lines(text), k);
    }
    SpelledClean(Parse(Lines(text)), values, d);
    CleanIsWellFormed(Spelled(Parse(Lines(text)), values, d));
  }

  /** Saving the same values into a text a second time changes nothing. */
  lemma UpdatedTwice(text: string, values: seq<Entry>, d: Decimals)
    requires CleanValues(values)
    ensures Updated(Updated(text, values, d), values, d) == Updated(text, values, d)
  {
    hide CleanValues, WellFormed, AllTrimmed, Parse, Lines, Spelled, RenderText;
    SpelledAgain(text, values, d);
    TextSpelling(text, values, d);
    RenderTextTwice(text, Spelled(Parse(Lines(text)), values, d));
  }

  /** After a save a field reads as the same text or the same number as the one submitted, exactly when the
      file sets it on at most one line or its last line said so already. */
  lemma SavedReads(text: string, values: seq<Entry>, d: Decimals, e: Entry)
    requires CleanValues(values) && e in values
    ensures Agrees(Get(Parse(Lines(Updated(text, values, d))), e.key), e.value, d)
       <==> Count(Lines(text), e.key) <= 1 || Agrees(Get(Parse(Lines(text)), e.key), e.value, d)
  {
    var us := Spelled(Parse(Lines(text)), values, d);
    TextSpelling(text, values, d);
    hide Render, RenderText, Lines, Parse, Spelled, CleanValues, WellFormed, AllTrimmed, Keys, ValueFor, Count;
    SpelledKeys(Parse(Lines(text)), values, d);
    ValueForEntry(values, e);
    RenderTextLines(text, us);
    RenderReads(Lines(text), us, e.key);
  }

  // ------------------------------------------------------------------ whole saves

  lemma {:induction false} PairEditsClean(pairs: seq<map<string, string>>, shared: seq<Entry>, d: Decimals)
    requires Sound(d) && CleanValues(shared) && PairEdits(pairs, shared, d).Ok?
    ensures forall e | e in PairEdits(pairs, shared, d).value :: CleanValues(e.values)
  {
    hide CleanValues, Sound, NormalizeFields, Merge, Related, FilesOf, FileOf;
    if pairs != [] {
      var n := |pairs| - 1;
      PairEditsClean(pairs[..n], shared, d);
      PairFieldsClean();
      var values := NormalizeFields(pairs[n], PAIR_FIELDS, d).value;
      NormalizedFieldsClean(pairs[n], PAIR_FIELDS, d);
      CleanMembers(values);
      MergeKeeps(shared, values);
    }
  }

  lemma CleanMembers(es: seq<Entry>)
    requires CleanValues(es)
    ensures forall e | e in es :: IsKey(e.key) && Clean(e.value)
  {
    hide IsKey, Clean;
  }

  lemma EditsClean(names: seq<string>, files: set<string>, p: Payload, d: Decimals)
    requires Sound(d) && Edits(names, files, p, d).Ok?
    ensures forall e | e in Edits(names, files, p, d).value :: CleanValues(e.values)
  {
    hide CleanValues, Sound, NormalizeFields, PairEdits, FilesOf, CleanFields;
    SharedFieldsClean();
    NormalizedFieldsClean(p.shared, SHARED_FIELDS, d);
    PairEditsClean(p.pairs, NormalizeFields(p.shared, SHARED_FIELDS, d).value, d);
  }

  /** The edits name the incoming files, each once, and all of them exist. */
  ghost predicate Aligned(files: map<string, string>, edits: seq<Edit>, incoming: seq<string>) {
    && (forall e | e in edits :: e.file in files)
    && Distinct(incoming) && |edits| == |incoming| && forall i | 0 <= i < |edits| :: edits[i].file == incoming[i]
  }

  /** An edited file ends up with the updated text. */
  lemma {:induction false} EditedFile(files: map<string, string>, edits: seq<Edit>, n: nat, i: nat, d: Decimals,
                                      incoming: seq<string>)
    requires i < n <= |edits| && Aligned(files, edits, incoming)
    ensures edits[i].file in Written(files, edits, n, d).0 && edits[i].file in files
    ensures Written(files, edits, n, d).0[edits[i].file] == Updated(files[edits[i].file], edits[i].values, d)
    decreases n
  {
    hide Updated, Written;
    WrittenStep(files, edits, n - 1, d);
    UntouchedUpTo(files, edits, n - 1, n - 1, d, incoming);
    assert edits[i] in edits;
    if i < n - 1 {
      EditedFile(files, edits, n - 1, i, d, incoming);
      assert incoming[i] != incoming[n - 1];
    }
  }

  /** A file that is not edited keeps its text. */
  lemma {:induction false} OtherFile(files: map<string, string>, edits: seq<Edit>, n: nat, f: string, d: Decimals,
                                     incoming: seq<string>)
    requires n <= |edits| && Aligned(files, edits, incoming) && f !in incoming
    ensures f in Written(files, edits, n, d).0 <==> f in files
    ensures f in files ==> Written(files, edits, n, d).0[f] == files[f]
    decreases n
  {
    hide Updated, Written;
    if n == 0 {
      NothingWritten(files, edits, d);
    } else {
      OtherFile(files, edits, n - 1, f, d, incoming);
      WrittenStep(files, edits, n - 1, d);
      assert incoming[n - 1] in incoming;
    }
  }

  lemma {:induction false} FileNames(files: map<string, string>, edits: seq<Edit>, n: nat, d: Decimals)
    requires n <= |edits| && forall e | e in edits :: e.file in files
    ensures Written(files, edits, n, d).0.Keys == files.Keys
  {
    hide Updated, Written;
    if n == 0 {
      NothingWritten(files, edits, d);
    } else {
      FileNames(files, edits, n - 1, d);
      WrittenStep(files, edits, n - 1, d);
      assert edits[n - 1] in edits;
    }
  }

  lemma {:induction false} NothingToWrite(files: map<string, string>, edits: seq<Edit>, n: nat, d: Decimals)
    requires n <= |edits| && forall e | e in edits :: e.file in files
    requires forall i | 0 <= i < |edits| :: Updated(files[edits[i].file], edits[i].values, d) == files[edits[i].file]
    ensures Written(files, edits, n, d) == (files, [])
  {
    hide Updated;
    if n > 0 {
      NothingToWrite(files, edits, n - 1, d);
    }
  }

  /** A payload that was accepted is accepted again, and the second save writes no file at all. */
  lemma SecondSaveWritesNothing(names: seq<string>, files: map<string, string>, p: Payload, d: Decimals)
    requires Distinct(names) && Sound(d) && Edits(names, files.Keys, p, d).Ok?
    ensures var edits := Edits(names, files.Keys, p, d).value;
            forall e | e in edits :: e.file in files
    ensures var edits := Edits(names, files.Keys, p, d).value;
            var files' := Written(files, edits, |edits|, d).0;
      && Edits(names, files'.Keys, p, d) == Edits(names, files.Keys, p, d)
      && (forall e | e in edits :: e.file in files')
      && Written(files', edits, |edits|, d) == (files', [])
  {
    hide Edits, Written, Updated, CleanValues, Sound, Distinct, FilesOf;
    var edits := Edits(names, files.Keys, p, d).value;
    EditsAreReadable(names, files.Keys, p, d);
    EditsClean(names, files.Keys, p, d);
    DistinctAlso(FilesOf(p.pairs), names);
    FileNames(files, edits, |edits|, d);
    var files' := Written(files, edits, |edits|, d).0;
    forall i | 0 <= i < |edits| ensures Updated(files'[edits[i].file], edits[i].values, d) == files'[edits[i].file] {
      assert edits[i] in edits;
      EditedFile(files, edits, |edits|, i, d, FilesOf(p.pairs));
      UpdatedTwice(files[edits[i].file], edits[i].values, d);
    }
    NothingToWrite(files', edits, |edits|, d);
  }
}
