/** Saving the strategy form: normalise and check every field first, then rewrite the files. */
module StrategyConfig {
  import opened Results
  import opened FlatYaml
  import opened FlatYamlLaws

  // ------------------------------------------------------------------ fields

  datatype Kind =
    | Integer(lo: Option<int>, hi: Option<int>)
    | Number(gt: Option<real>, ge: Option<real>, lt: Option<real>)
    | Choice(options: seq<string>)
    | Switch

  datatype Field = Field(key: string, kind: Kind)

  const POSITIVE := Number(Some(0.0), None, None)
  const FRACTION := Number(Some(0.0), None, Some(1.0))
  const FRACTION_OR_ZERO := Number(None, Some(0.0), Some(1.0))
  const INTERVALS: seq<string> := ["1m", "3m", "5m", "15m", "30m", "1h"]

  const PAIR_FIELDS: seq<Field> := [
    Field("leverage", Integer(Some(1), Some(5))),
    Field("total_amount_quote", POSITIVE),
    Field("take_profit_quote", POSITIVE),
    Field("fixed_unrealized_tp_quote", Number(Some(1.0), None, None))]

  const SIGNAL_FIELDS: seq<Field> := [
    Field("candles_interval", Choice(INTERVALS)),
    Field("mean_window", Integer(Some(10), Some(500))),
    Field("entry_z_score", POSITIVE),
    Field("max_entry_z_score", POSITIVE),
    Field("exit_z_score", Number(None, Some(0.0), None))]

  const STOP_FIELDS: seq<Field> := [
    Field("min_std_pct", FRACTION),
    Field("atr_length", Integer(Some(2), Some(100))),
    Field("atr_stop_multiplier", POSITIVE),
    Field("min_stop_loss", FRACTION),
    Field("max_stop_loss", FRACTION)]

  const COST_FIELDS: seq<Field> := [
    Field("round_trip_cost_pct", FRACTION_OR_ZERO),
    Field("min_net_edge_pct", FRACTION),
    Field("min_reward_risk", POSITIVE),
    Field("quote_offset_pct", FRACTION_OR_ZERO),
    Field("max_bid_ask_spread_pct", FRACTION)]

  const TIME_FIELDS: seq<Field> := [
    Field("executor_refresh_time", Integer(Some(1), None)),
    Field("cooldown_time", Integer(Some(1), None)),
    Field("stop_loss_cooldown_time", Integer(Some(1), None)),
    Field("time_limit", Integer(Some(60), None)),
    Field("manual_kill_switch", Switch)]

  const SHARED_FIELDS: seq<Field> := SIGNAL_FIELDS + STOP_FIELDS + COST_FIELDS + TIME_FIELDS

  // ------------------------------------------------------------------ values

  /** Decimal texts: the finite number a text stands for, and its plain rendering. */
  datatype Decimals = Decimals(read: string -> Option<real>, show: string -> string)

  predicate IsBlank(c: char) { c == ' ' || c == '\t' || c == '\n' || c == '\r' }
  function StripLeft(s: string): string { if s != [] && IsBlank(s[0]) then StripLeft(s[1..]) else s }
  function StripRight(s: string): string { if s != [] && IsBlank(s[|s| - 1]) then StripRight(s[..|s| - 1]) else s }
  function Strip(s: string): string { StripRight(StripLeft(s)) }

  function LowerChar(c: char): char { if 'A' <= c <= 'Z' then ((c as int) + 32) as char else c }
  function Lower(s: string): string { if s == [] then [] else [LowerChar(s[0])] + Lower(s[1..]) }

  predicate IsDigit(c: char) { '0' <= c <= '9' }
  predicate IsIntText(s: string) {
    var digits := if s != [] && s[0] == '-' then s[1..] else s;
    digits != [] && forall c | c in digits :: IsDigit(c)
  }

  function DigitOf(c: char): nat
    requires IsDigit(c)
  {
    c as int - '0' as int
  }

  function Digits(s: string): nat
    requires forall c | c in s :: IsDigit(c)
  {
    if s == [] then 0
    else
      assert s[|s| - 1] in s;
      10 * Digits(s[..|s| - 1]) + DigitOf(s[|s| - 1])
  }

  function IntOf(s: string): int {
    if !IsIntText(s) then 0 else if s[0] == '-' then -(Digits(s[1..]) as int) else Digits(s)
  }

  function ShowNat(n: nat): string {
    (if n < 10 then [] else ShowNat(n / 10)) + [(n % 10 + '0' as int) as char]
  }

  function ShowInt(n: int): string { if n < 0 then "-" + ShowNat(-n) else ShowNat(n) }

  predicate Above(bound: Option<real>, x: real) { bound.Some? ==> x > bound.value }
  predicate AtLeast(bound: Option<real>, x: real) { bound.Some? ==> x >= bound.value }
  predicate Below(bound: Option<real>, x: real) { bound.Some? ==> x < bound.value }

  function NormalizeValue(kind: Kind, raw: string, d: Decimals): Result<string> {
    var text := Strip(raw);
    match kind
    case Switch =>
      if Lower(text) in {"true", "yes", "1"} then Ok("true")
      else if Lower(text) in {"false", "no", "0"} then Ok("false")
      else Err("not a switch")
    case Choice(options) => if text in options then Ok(text) else Err("not an option")
    case Integer(lo, hi) =>
      if !IsIntText(text) then Err("not an integer")
      else if lo.Some? && IntOf(text) < lo.value then Err("too small")
      else if hi.Some? && IntOf(text) > hi.value then Err("too large")
      else Ok(ShowInt(IntOf(text)))
    case Number(gt, ge, lt) =>
      var x := d.read(text);
      if x.None? then Err("not a number")
      else if !Above(gt, x.value) || !AtLeast(ge, x.value) || !Below(lt, x.value) then Err("out of bounds")
      else Ok(d.show(text))
  }

  // ------------------------------------------------------------------ forms

  /** Setting a key in an ordered dictionary. */
  function Put(es: seq<Entry>, key: string, value: string): seq<Entry> {
    if es == [] then [Entry(key, value)]
    else if es[0].key == key then [Entry(key, value)] + es[1..]
    else [es[0]] + Put(es[1..], key, value)
  }

  /** Later entries override earlier ones in place. */
  function Merge(es: seq<Entry>, more: seq<Entry>): seq<Entry>
    decreases |more|
  {
    if more == [] then es else Merge(Put(es, more[0].key, more[0].value), more[1..])
  }

  function Raw(source: map<string, string>, key: string): Option<string> {
    if key in source then Some(source[key]) else if key == "fixed_unrealized_tp_quote" then Some("2") else None
  }

  function NormalizeFields(source: map<string, string>, fields: seq<Field>, d: Decimals): Result<seq<Entry>> {
    if fields == [] then Ok([])
    else
      var field := fields[|fields| - 1];
      var before := NormalizeFields(source, fields[..|fields| - 1], d);
      if before.Err? then before
      else
        var raw := Raw(source, field.key);
        if raw.None? then Err("missing " + field.key)
        else
          var value := NormalizeValue(field.kind, raw.value, d);
          if value.Err? then Err(field.key + ": " + value.error) else Ok(Put(before.value, field.key, value.value))
  }

  function Text(values: seq<Entry>, key: string): string { if key in Keys(values) then ValueFor(values, key) else "" }

  function NumberIn(values: seq<Entry>, key: string, d: Decimals): real {
    var x := d.read(Text(values, key));
    if x.Some? then x.value else 0.0
  }

  function IntIn(values: seq<Entry>, key: string): int { IntOf(Text(values, key)) }

  /** The checks across fields. */
  predicate Related(values: seq<Entry>, d: Decimals) {
    && NumberIn(values, "exit_z_score", d) < NumberIn(values, "entry_z_score", d) < NumberIn(values, "max_entry_z_score", d)
    && NumberIn(values, "min_stop_loss", d) <= NumberIn(values, "max_stop_loss", d)
    && IntIn(values, "stop_loss_cooldown_time") >= IntIn(values, "cooldown_time")
    && IntIn(values, "executor_refresh_time") < IntIn(values, "time_limit")
  }

  // ------------------------------------------------------------------ saving

  datatype Payload = Payload(pairs: seq<map<string, string>>, shared: map<string, string>)

  /** One file and the normalised values it must get. */
  datatype Edit = Edit(file: string, values: seq<Entry>)

  function FileOf(pair: map<string, string>): string { if "file" in pair then pair["file"] else "" }
  function FilesOf(pairs: seq<map<string, string>>): seq<string> {
    if pairs == [] then [] else FilesOf(pairs[..|pairs| - 1]) + [FileOf(pairs[|pairs| - 1])]
  }

  function PairEdits(pairs: seq<map<string, string>>, shared: seq<Entry>, d: Decimals): Result<seq<Edit>> {
    if pairs == [] then Ok([])
    else
      var pair := pairs[|pairs| - 1];
      var before := PairEdits(pairs[..|pairs| - 1], shared, d);
      if before.Err? then before
      else
        var values := NormalizeFields(pair, PAIR_FIELDS, d);
        if values.Err? then Err(values.error)
        else
          var merged := Merge(shared, values.value);
          if Related(merged, d) then Ok(before.value + [Edit(FileOf(pair), merged)])
          else Err(FileOf(pair) + ": inconsistent")
  }

  /** Everything that can be wrong with a payload, found before anything is written. */
  function Edits(names: seq<string>, files: set<string>, p: Payload, d: Decimals): Result<seq<Edit>> {
    if exists name | name in FilesOf(p.pairs) :: name !in names then Err("unknown file")
    else if multiset(FilesOf(p.pairs)) != multiset(names) then Err("incomplete")
    else if exists name | name in names :: name !in files then Err("unreadable file")
    else
      var shared := NormalizeFields(p.shared, SHARED_FIELDS, d);
      if shared.Err? then Err(shared.error) else PairEdits(p.pairs, shared.value, d)
  }

  /** The text in a file says what was submitted: the same text, or the same number. */
  predicate Agrees(previous: Option<string>, value: string, d: Decimals) {
    previous.Some? && (previous.value == value
                       || (d.read(previous.value).Some? && d.read(previous.value) == d.read(value)))
  }

  function PreserveSpelling(previous: Option<string>, normalized: string, d: Decimals): string {
    if Agrees(previous, normalized, d) then previous.value else normalized
  }

  function Spelled(original: map<string, string>, values: seq<Entry>, d: Decimals): seq<Entry> {
    if values == [] then []
    else [Entry(values[0].key, PreserveSpelling(Get(original, values[0].key), values[0].value, d))]
         + Spelled(original, values[1..], d)
  }

  function Updated(text: string, values: seq<Entry>, d: Decimals): string {
    RenderText(text, Spelled(Parse(Lines(text)), values, d))
  }

  /** The files after the first `n` edits, and the names of those actually written. */
  function Written(files: map<string, string>, edits: seq<Edit>, n: nat, d: Decimals): (map<string, string>, seq<string>)
    requires n <= |edits| && forall e | e in edits :: e.file in files
  {
    if n == 0 then (files, [])
    else
      var (files', log) := Written(files, edits, n - 1, d);
      var e := edits[n - 1];
      var updated := Updated(files[e.file], e.values, d);
      if updated != files[e.file] then (files'[e.file := updated], log + [e.file]) else (files', log)
  }

  ghost predicate Distinct(names: seq<string>) { forall i, j | 0 <= i < j < |names| :: names[i] != names[j] }

  lemma {:induction false} EditFiles(pairs: seq<map<string, string>>, shared: seq<Entry>, d: Decimals)
    requires PairEdits(pairs, shared, d).Ok?
    ensures var edits := PairEdits(pairs, shared, d).value;
            |edits| == |pairs| == |FilesOf(pairs)| && forall i | 0 <= i < |edits| :: edits[i].file == FilesOf(pairs)[i]
  {
    hide NormalizeFields, Merge, Related;
    if pairs != [] {
      EditFiles(pairs[..|pairs| - 1], shared, d);
    }
  }

  lemma EditsAreReadable(names: seq<string>, files: set<string>, p: Payload, d: Decimals)
    requires Edits(names, files, p, d).Ok?
    ensures var edits := Edits(names, files, p, d).value;
      && (forall e | e in edits :: e.file in files)
      && |edits| == |FilesOf(p.pairs)| && (forall i | 0 <= i < |edits| :: edits[i].file == FilesOf(p.pairs)[i])
      && multiset(FilesOf(p.pairs)) == multiset(names)
  {
    hide NormalizeFields, PairEdits, FilesOf;
    EditFiles(p.pairs, NormalizeFields(p.shared, SHARED_FIELDS, d).value, d);
  }

  // ------------------------------------------------------------------ the loops, one round at a time

  lemma NoFiles()
    ensures FilesOf([]) == []
  {
  }

  lemma FilesStep(pairs: seq<map<string, string>>, i: nat)
    requires i < |pairs|
    ensures FilesOf(pairs[..i + 1]) == FilesOf(pairs[..i]) + [FileOf(pairs[i])]
  {
    assert pairs[..i + 1][..i] == pairs[..i];
  }

  lemma {:induction false} FilesPrefix(pairs: seq<map<string, string>>, n: nat)
    requires n <= |pairs|
    ensures FilesOf(pairs[..n]) <= FilesOf(pairs)
  {
    var last := |pairs| - 1;
    if n == |pairs| {
      assert pairs[..n] == pairs;
    } else {
      FilesPrefix(pairs[..last], n);
      assert pairs[..last][..n] == pairs[..n];
    }
  }

  lemma NoFields(source: map<string, string>, fields: seq<Field>, d: Decimals)
    ensures NormalizeFields(source, fields[..0], d) == Ok([])
  {
  }

  lemma FieldStep(source: map<string, string>, fields: seq<Field>, i: nat, d: Decimals)
    requires i < |fields| && NormalizeFields(source, fields[..i], d).Ok?
    ensures NormalizeFields(source, fields[..i + 1], d)
         == var raw := Raw(source, fields[i].key);
            if raw.None? then Err("missing " + fields[i].key)
            else
              var value := NormalizeValue(fields[i].kind, raw.value, d);
              if value.Err? then Err(fields[i].key + ": " + value.error)
              else Ok(Put(NormalizeFields(source, fields[..i], d).value, fields[i].key, value.value))
  {
    hide NormalizeValue, Put;
    assert fields[..i + 1][..i] == fields[..i];
  }

  /** The first field that fails decides the error. */
  lemma {:induction false} FailedField(source: map<string, string>, fields: seq<Field>, n: nat, d: Decimals)
    requires n <= |fields|
    ensures NormalizeFields(source, fields[..n], d).Err?
            ==> NormalizeFields(source, fields, d) == NormalizeFields(source, fields[..n], d)
  {
    hide NormalizeValue, Put, Raw;
    var last := |fields| - 1;
    if n == |fields| {
      assert fields[..n] == fields;
    } else {
      FailedField(source, fields[..last], n, d);
      assert fields[..last][..n] == fields[..n];
    }
  }

  lemma NoPairs(pairs: seq<map<string, string>>, shared: seq<Entry>, d: Decimals)
    ensures PairEdits(pairs[..0], shared, d) == Ok([])
  {
  }

  lemma PairStep(pairs: seq<map<string, string>>, shared: seq<Entry>, i: nat, d: Decimals)
    requires i < |pairs| && PairEdits(pairs[..i], shared, d).Ok?
    ensures PairEdits(pairs[..i + 1], shared, d)
         == var values := NormalizeFields(pairs[i], PAIR_FIELDS, d);
            if values.Err? then Err(values.error)
            else if Related(Merge(shared, values.value), d)
            then Ok(PairEdits(pairs[..i], shared, d).value + [Edit(FileOf(pairs[i]), Merge(shared, values.value))])
            else Err(FileOf(pairs[i]) + ": inconsistent")
  {
    hide NormalizeFields, Merge, Related, FileOf;
    assert pairs[..i + 1][..i] == pairs[..i];
  }

  /** The first pair that fails decides the error. */
  lemma {:induction false} FailedPair(pairs: seq<map<string, string>>, shared: seq<Entry>, n: nat, d: Decimals)
    requires n <= |pairs|
    ensures PairEdits(pairs[..n], shared, d).Err? ==> PairEdits(pairs, shared, d) == PairEdits(pairs[..n], shared, d)
  {
    hide NormalizeFields, Merge, Related, FileOf;
    var last := |pairs| - 1;
    if n == |pairs| {
      assert pairs[..n] == pairs;
    } else {
      FailedPair(pairs[..last], shared, n, d);
      assert pairs[..last][..n] == pairs[..n];
    }
  }

  /** The editor and the files it keeps; `log` records the files written, in order. */
  class Editor {
    const names: seq<string>
    const d: Decimals
    var files: map<string, string>
    var log: seq<string>

    constructor (names: seq<string>, files: map<string, string>, d: Decimals)
      ensures this.names == names && this.d == d && this.files == files && log == []
    {
      this.names, this.files, this.d, log := names, files, d, [];
    }

    /** Either an error and no write at all, or every edit written in payload order. */
    method ApplyConfig(p: Payload) returns (r: Result<seq<string>>)
      requires Distinct(names)
      modifies this
      ensures Edits(names, old(files).Keys, p, d).Err? ==> r.Err? && files == old(files) && log == old(log)
      ensures Edits(names, old(files).Keys, p, d).Ok? ==>
                var edits := Edits(names, old(files).Keys, p, d).value;
                && (forall e | e in edits :: e.file in old(files))
                && (files, log) == (Written(old(files), edits, |edits|, d).0,
                                    old(log) + Written(old(files), edits, |edits|, d).1)
                && r == Ok(FilesOf(p.pairs))
    {
      var checked := Check(p);
      if checked.Err? {
        return Err(checked.error);
      }
      var edits := checked.value;
      EditsAreReadable(names, files.Keys, p, d);
      WriteEdits(edits, p);
      return Ok(FilesOf(p.pairs));
    }

    /** All the validation, without writing. */
    method Check(p: Payload) returns (checked: Result<seq<Edit>>)
      ensures checked == Edits(names, files.Keys, p, d)
    {
      hide NormalizeFields, PairEdits, FilesOf;
      var incoming := IncomingNames(p.pairs);
      if incoming.Err? {
        return Err(incoming.error);
      }
      if multiset(incoming.value) != multiset(names) {
        return Err("incomplete");
      }
      for i := 0 to |names|
        invariant forall name | name in names[..i] :: name in files
      {
        if names[i] !in files {
          return Err("unreadable file");
        }
      }
      var shared := NormalizeAll(p.shared, SHARED_FIELDS);
      if shared.Err? {
        return Err(shared.error);
      }
      checked := CheckPairs(p.pairs, shared.value);
    }

    method IncomingNames(pairs: seq<map<string, string>>) returns (r: Result<seq<string>>)
      ensures r == if exists name | name in FilesOf(pairs) :: name !in names then Err("unknown file") else Ok(FilesOf(pairs))
    {
      hide FilesOf;
      var incoming: seq<string> := [];
      NoFiles();
      assert pairs[..0] == [];
      for i := 0 to |pairs|
        invariant incoming == FilesOf(pairs[..i]) && forall name | name in incoming :: name in names
      {
        FilesStep(pairs, i);
        var name := FileOf(pairs[i]);
        incoming := incoming + [name];
        if name !in names {
          FilesPrefix(pairs, i + 1);
          assert FilesOf(pairs)[|incoming| - 1] == name;
          return Err("unknown file");
        }
      }
      assert pairs[..|pairs|] == pairs;
      return Ok(incoming);
    }

    method NormalizeAll(source: map<string, string>, fields: seq<Field>) returns (r: Result<seq<Entry>>)
      ensures r == NormalizeFields(source, fields, d)
    {
      hide NormalizeValue, Put, NormalizeFields;
      var values: seq<Entry> := [];
      NoFields(source, fields, d);
      for i := 0 to |fields|
        invariant NormalizeFields(source, fields[..i], d) == Ok(values)
      {
        FieldStep(source, fields, i, d);
        FailedField(source, fields, i + 1, d);
        var raw := Raw(source, fields[i].key);
        if raw.None? {
          return Err("missing " + fields[i].key);
        }
        var value := NormalizeValue(fields[i].kind, raw.value, d);
        if value.Err? {
          return Err(fields[i].key + ": " + value.error);
        }
        values := Put(values, fields[i].key, value.value);
      }
      assert fields[..|fields|] == fields;
      return Ok(values);
    }

    method CheckPairs(pairs: seq<map<string, string>>, shared: seq<Entry>) returns (r: Result<seq<Edit>>)
      ensures r == PairEdits(pairs, shared, d)
    {
      hide NormalizeFields, Merge, Related, PairEdits;
      var edits: seq<Edit> := [];
      NoPairs(pairs, shared, d);
      for i := 0 to |pairs|
        invariant PairEdits(pairs[..i], shared, d) == Ok(edits)
      {
        PairStep(pairs, shared, i, d);
        FailedPair(pairs, shared, i + 1, d);
        var values := NormalizeAll(pairs[i], PAIR_FIELDS);
        if values.Err? {
          return Err(values.error);
        }
        var merged := Merge(shared, values.value);
        if !Related(merged, d) {
          return Err(FileOf(pairs[i]) + ": inconsistent");
        }
        edits := edits + [Edit(FileOf(pairs[i]), merged)];
      }
      assert pairs[..|pairs|] == pairs;
      return Ok(edits);
    }

    method WriteEdits(edits: seq<Edit>, ghost p: Payload)
      requires forall e | e in edits :: e.file in files
      requires Distinct(names) && multiset(FilesOf(p.pairs)) == multiset(names)
      requires |edits| == |FilesOf(p.pairs)| && forall i | 0 <= i < |edits| :: edits[i].file == FilesOf(p.pairs)[i]
      modifies this
      ensures (files, log) == (Written(old(files), edits, |edits|, d).0, old(log) + Written(old(files), edits, |edits|, d).1)
    {
      hide *;
      ghost var before := files;
      NothingWritten(before, edits, d);
      ghost var written: seq<string> := [];
      for i := 0 to |edits|
        invariant (files, written) == Written(before, edits, i, d) && log == old(log) + written
      {
        WrittenStep(before, edits, i, d);
        Untouched(before, edits, i, d, names, FilesOf(p.pairs));
        var e := edits[i];
        var text := files[e.file];
        var updated := Updated(text, e.values, d);
        if updated != text {
          files := files[e.file := updated];
          log := log + [e.file];
          written := written + [e.file];
        }
      }
    }
  }

  lemma NothingWritten(files: map<string, string>, edits: seq<Edit>, d: Decimals)
    requires forall e | e in edits :: e.file in files
    ensures Written(files, edits, 0, d) == (files, [])
  {
  }

  lemma WrittenStep(files: map<string, string>, edits: seq<Edit>, n: nat, d: Decimals)
    requires n < |edits| && forall e | e in edits :: e.file in files
    ensures edits[n].file in files
    ensures var (files', log) := Written(files, edits, n, d);
            var e := edits[n];
            var updated := Updated(files[e.file], e.values, d);
            Written(files, edits, n + 1, d)
            == if updated != files[e.file] then (files'[e.file := updated], log + [e.file]) else (files', log)
  {
    hide Updated;
  }

  /** No file is edited twice, so each edit starts from the original text. */
  lemma Untouched(files: map<string, string>, edits: seq<Edit>, n: nat, d: Decimals, names: seq<string>, incoming: seq<string>)
    requires n < |edits| && forall e | e in edits :: e.file in files
    requires Distinct(names) && multiset(incoming) == multiset(names)
    requires |edits| == |incoming| && forall i | 0 <= i < |edits| :: edits[i].file == incoming[i]
    ensures edits[n].file in Written(files, edits, n, d).0
    ensures Written(files, edits, n, d).0[edits[n].file] == files[edits[n].file]
  {
    DistinctAlso(incoming, names);
    hide Updated;
    UntouchedUpTo(files, edits, n, n, d, incoming);
  }

  lemma {:induction false} UntouchedUpTo(files: map<string, string>, edits: seq<Edit>, k: nat, n: nat, d: Decimals,
                                         incoming: seq<string>)
    requires k <= n < |edits| && forall e | e in edits :: e.file in files
    requires Distinct(incoming) && |edits| == |incoming| && forall i | 0 <= i < |edits| :: edits[i].file == incoming[i]
    ensures Written(files, edits, k, d).0.Keys == files.Keys
    ensures Written(files, edits, k, d).0[edits[n].file] == files[edits[n].file]
    decreases k
  {
    hide Updated, Written;
    if k == 0 {
      NothingWritten(files, edits, d);
    } else {
      UntouchedUpTo(files, edits, k - 1, n, d, incoming);
      WrittenStep(files, edits, k - 1, d);
      assert incoming[k - 1] != incoming[n];
    }
  }

  lemma DistinctAlso(s: seq<string>, names: seq<string>)
    requires Distinct(names) && multiset(s) == multiset(names)
    ensures Distinct(s)
  {
    forall i, j | 0 <= i < j < |s| ensures s[i] != s[j] {
      if s[i] == s[j] {
        TwiceInBag(s, i, j);
        OnceInBag(names, s[i]);
      }
    }
  }

  lemma TwiceInBag(s: seq<string>, i: nat, j: nat)
    requires i < j < |s| && s[i] == s[j]
    ensures multiset(s)[s[i]] >= 2
  {
    assert s == s[..j] + s[j..];
    assert s[i] in s[..j] && s[j] in s[j..];
  }

  lemma {:induction false} OnceInBag(names: seq<string>, x: string)
    requires Distinct(names)
    ensures multiset(names)[x] <= 1
  {
    if names != [] {
      var n := |names| - 1;
      OnceInBag(names[..n], x);
      assert names == names[..n] + [names[n]];
      if x == names[n] {
        assert x !in names[..n];
      }
    }
  }
}
