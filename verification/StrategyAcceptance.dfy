/** Exactly which payloads are saved, in terms of what was submitted. */
module StrategyAcceptance {
  import opened Results
  import opened FlatYaml
  import opened FlatYamlLaws
  import opened StrategyConfig
  import opened StrategyLaws

  // ------------------------------------------------------------------ what the form asks for

  predicate Within(n: int, lo: Option<int>, hi: Option<int>) {
    (lo.Some? ==> lo.value <= n) && (hi.Some? ==> n <= hi.value)
  }

  /** A submitted text that fits its field. */
  predicate Fits(kind: Kind, text: string, d: Decimals) {
    match kind
    case Switch => Lower(text) in {"true", "yes", "1", "false", "no", "0"}
    case Choice(options) => text in options
    case Integer(lo, hi) => IsIntText(text) && Within(IntOf(text), lo, hi)
    case Number(gt, ge, lt) =>
      var x := d.read(text);
      && x.Some? && (gt.Some? ==> x.value > gt.value) && (ge.Some? ==> x.value >= ge.value)
      && (lt.Some? ==> x.value < lt.value)
  }

  /** The text submitted for a field; only the fixed take profit has a default. */
  function Submitted(source: map<string, string>, key: string): Option<string> {
    var raw := Raw(source, key);
    if raw.Some? then Some(Strip(raw.value)) else None
  }

  predicate Filled(source: map<string, string>, f: Field, d: Decimals) {
    Submitted(source, f.key).Some? && Fits(f.kind, Submitted(source, f.key).value, d)
  }

  predicate FormFilled(source: map<string, string>, fields: seq<Field>, d: Decimals) {
    forall f | f in fields :: Filled(source, f, d)
  }

  function NumberGiven(source: map<string, string>, key: string, d: Decimals): real {
    var text := Submitted(source, key);
    if text.Some? && d.read(text.value).Some? then d.read(text.value).value else 0.0
  }

  function IntGiven(source: map<string, string>, key: string): int {
    var text := Submitted(source, key);
    if text.Some? then IntOf(text.value) else 0
  }

  /** The checks across fields, on the numbers submitted for the whole strategy. */
  predicate Consistent(shared: map<string, string>, d: Decimals) {
    && NumberGiven(shared, "exit_z_score", d) < NumberGiven(shared, "entry_z_score", d)
    && NumberGiven(shared, "entry_z_score", d) < NumberGiven(shared, "max_entry_z_score", d)
    && NumberGiven(shared, "min_stop_loss", d) <= NumberGiven(shared, "max_stop_loss", d)
    && IntGiven(shared, "stop_loss_cooldown_time") >= IntGiven(shared, "cooldown_time")
    && IntGiven(shared, "executor_refresh_time") < IntGiven(shared, "time_limit")
  }

  /** Rendering a decimal keeps its value. */
  ghost predicate Faithful(d: Decimals) { forall t: string | d.read(t).Some? :: d.read(d.show(t)) == d.read(t) }

  // ------------------------------------------------------------------ one list of fields

  lemma FitsIff(kind: Kind, raw: string, d: Decimals)
    ensures NormalizeValue(kind, raw, d).Ok? <==> Fits(kind, Strip(raw), d)
  {
    hide Strip, IsIntText, IntOf, ShowInt, Lower;
  }

  /** What is written for a value that fits: one spelling per switch, the option itself, the integer's and the
      decimal's own plain form. */
  lemma WrittenAs(kind: Kind, raw: string, d: Decimals)
    requires Fits(kind, Strip(raw), d)
    ensures var value, text := NormalizeValue(kind, raw, d), Strip(raw);
      && value.Ok?
      && (kind.Switch? && Lower(text) in {"true", "yes", "1"} ==> value.value == "true")
      && (kind.Switch? && Lower(text) in {"false", "no", "0"} ==> value.value == "false")
      && (kind.Choice? ==> value.value == text)
      && (kind.Integer? ==> IntOf(value.value) == IntOf(text))
      && (kind.Number? ==> value.value == d.show(text))
  {
    hide Strip, IsIntText, IntOf, ShowInt, Lower;
    if kind.Integer? {
      ShowIntReads(IntOf(Strip(raw)));
    }
  }

  /** Only the fixed take profit may be left out, and then it is 2. */
  lemma SubmittedTerms(source: map<string, string>, key: string)
    ensures key in source ==> Submitted(source, key) == Some(Strip(source[key]))
    ensures "fixed_unrealized_tp_quote" !in source ==> Submitted(source, "fixed_unrealized_tp_quote") == Some("2")
    ensures key !in source && key != "fixed_unrealized_tp_quote" ==> Submitted(source, key) == None
  {
    assert Strip("2") == "2";
  }

  /** The accepted spellings of a switch, whatever their case. */
  lemma OnSpellings()
    ensures Lower("TRUE") == Lower("True") == "true" && Lower("YES") == "yes" && Lower("1") == "1"
  {
  }

  lemma OffSpellings()
    ensures Lower("FALSE") == Lower("False") == "false" && Lower("NO") == "no" && Lower("0") == "0"
  {
  }

  /** Lower case is written in letters that lower case leaves alone. */
  lemma {:induction false} LowerTerms(text: string)
    ensures |Lower(text)| == |text| && Lower(Lower(text)) == Lower(text)
    ensures forall i | 0 <= i < |text| ::
              if 'A' <= text[i] <= 'Z' then Lower(text)[i] as int - 'a' as int == text[i] as int - 'A' as int
              else Lower(text)[i] == text[i]
  {
    if text != [] {
      LowerTerms(text[1..]);
      assert Lower(text)[1..] == Lower(text[1..]);
    }
  }

  predicate AllBlank(text: string) { forall c | c in text :: c == ' ' || c == '\t' || c == '\n' || c == '\r' }

  lemma StripLeftCons(c: char, rest: string)
    ensures StripLeft([c] + rest) == if IsBlank(c) then StripLeft(rest) else [c] + rest
    ensures StripLeft([]) == []
  {
    assert ([c] + rest)[1..] == rest;
  }

  lemma StripRightSnoc(init: string, c: char)
    ensures StripRight(init + [c]) == if IsBlank(c) then StripRight(init) else init + [c]
    ensures StripRight([]) == []
  {
    assert (init + [c])[..|init|] == init;
  }

  lemma BlankParts(a: string, b: string)
    ensures AllBlank(a + b) <==> AllBlank(a) && AllBlank(b)
    ensures AllBlank([])
  {
    assert forall c :: c in a + b <==> c in a || c in b;
  }

  lemma BlankOne(c: char)
    ensures AllBlank([c]) <==> IsBlank(c)
  {
    assert c in [c];
  }

  /** What stripping the left takes off is blank, and what it stops at is not. */
  lemma {:induction false} StripLeftTerms(text: string) returns (blanks: string)
    ensures text == blanks + StripLeft(text) && AllBlank(blanks)
    ensures StripLeft(text) != [] ==> !AllBlank(StripLeft(text)[..1])
    decreases |text|
  {
    hide StripLeft, AllBlank, IsBlank;
    blanks := [];
    BlankParts([], []);
    StripLeftCons(' ', []);
    if text != [] {
      var c, rest := text[0], text[1..];
      assert text == [c] + rest;
      StripLeftCons(c, rest);
      BlankOne(c);
      if IsBlank(c) {
        var more := StripLeftTerms(rest);
        blanks := [c] + more;
        BlankParts([c], more);
      } else {
        assert text[..1] == [c];
      }
    }
  }

  lemma {:induction false} StripRightTerms(text: string) returns (blanks: string)
    ensures text == StripRight(text) + blanks && AllBlank(blanks)
    ensures StripRight(text) != [] ==> !AllBlank(StripRight(text)[|StripRight(text)| - 1..])
    decreases |text|
  {
    hide StripRight, AllBlank, IsBlank;
    blanks := [];
    BlankParts([], []);
    StripRightSnoc([], ' ');
    if text != [] {
      var init, c := text[..|text| - 1], text[|text| - 1];
      assert text == init + [c];
      StripRightSnoc(init, c);
      BlankOne(c);
      if IsBlank(c) {
        var more := StripRightTerms(init);
        blanks := more + [c];
        BlankParts(more, [c]);
        assert text == StripRight(init) + (more + [c]);
      } else {
        assert text[|text| - 1..] == [c];
      }
    }
  }

  /** Stripping takes blanks off both ends and stops at the first other character. */
  lemma StripTerms(text: string) returns (before: string, after: string)
    ensures text == before + Strip(text) + after && AllBlank(before) && AllBlank(after)
    ensures Strip(text) != [] ==> !AllBlank(Strip(text)[..1]) && !AllBlank(Strip(text)[|Strip(text)| - 1..])
  {
    hide StripLeft, StripRight, AllBlank;
    before := StripLeftTerms(text);
    var left := StripLeft(text);
    after := StripRightTerms(left);
    if Strip(text) != [] {
      assert left[..1] == Strip(text)[..1];
    }
  }

  /** Printed integers have no sign unless negative and no leading zero. */
  lemma {:induction false} ShowNatTerms(n: nat)
    ensures ShowNat(n) != [] && (forall c | c in ShowNat(n) :: '0' <= c <= '9')
    ensures if n == 0 then ShowNat(n) == "0" else ShowNat(n)[0] != '0'
  {
    if n >= 10 {
      ShowNatTerms(n / 10);
    }
  }

  lemma ShowIntTerms(n: int)
    ensures ShowInt(n) == (if n < 0 then "-" + ShowNat(-n) else ShowNat(n))
    ensures n >= 0 ==> ShowInt(n)[0] != '-'
  {
    hide ShowNat;
    ShowNatTerms(if n < 0 then -n else n);
    if n >= 0 {
      assert ShowNat(n)[0] in ShowNat(n);
    }
  }

  lemma FormSnoc(source: map<string, string>, fields: seq<Field>, d: Decimals)
    requires fields != []
    ensures FormFilled(source, fields, d)
       <==> FormFilled(source, fields[..|fields| - 1], d) && Filled(source, fields[|fields| - 1], d)
  {
    hide Filled;
    var n := |fields| - 1;
    assert fields == fields[..n] + [fields[n]];
  }

  lemma {:induction false} FormFilledIff(source: map<string, string>, fields: seq<Field>, d: Decimals)
    ensures NormalizeFields(source, fields, d).Ok? <==> FormFilled(source, fields, d)
  {
    hide NormalizeValue, Fits, Put, Raw, Strip;
    if fields != [] {
      var n := |fields| - 1;
      FormFilledIff(source, fields[..n], d);
      FormSnoc(source, fields, d);
      hide FormFilled;
      if Raw(source, fields[n].key).Some? {
        FitsIff(fields[n].kind, Raw(source, fields[n].key).value, d);
      }
    }
  }

  // ------------------------------------------------------------------ the values of a form

  lemma TextHead(e: Entry, rest: seq<Entry>, key: string)
    ensures Text([e] + rest, key) == if e.key == key then e.value else Text(rest, key)
  {
    KeysHead([e] + rest);
    assert ([e] + rest)[1..] == rest;
  }

  lemma {:induction false} PutText(es: seq<Entry>, key: string, value: string, asked: string)
    ensures Text(Put(es, key, value), asked) == if asked == key then value else Text(es, asked)
  {
    hide Text;
    if es == [] {
      TextHead(Entry(key, value), [], asked);
      assert [Entry(key, value)] + [] == [Entry(key, value)];
    } else {
      var e, rest := es[0], es[1..];
      assert es == [e] + rest;
      TextHead(e, rest, asked);
      if e.key == key {
        TextHead(Entry(key, value), rest, asked);
      } else {
        PutText(rest, key, value, asked);
        TextHead(e, Put(rest, key, value), asked);
      }
    }
  }

  lemma {:induction false} MergeText(es: seq<Entry>, more: seq<Entry>, asked: string)
    requires asked !in Keys(more)
    ensures Text(Merge(es, more), asked) == Text(es, asked)
    decreases |more|
  {
    hide Text, Put, Keys;
    if more != [] {
      KeysHead(more);
      PutText(es, more[0].key, more[0].value, asked);
      MergeText(Put(es, more[0].key, more[0].value), more[1..], asked);
    }
  }

  lemma {:induction false} PutKeys(es: seq<Entry>, key: string, value: string)
    ensures Keys(Put(es, key, value)) == Keys(es) + {key}
  {
    hide Keys;
    KeysOfNone();
    KeysHead(Put(es, key, value));
    if es == [] {
      assert [Entry(key, value)][1..] == [];
    } else {
      KeysHead(es);
      if es[0].key == key {
        assert ([Entry(key, value)] + es[1..])[1..] == es[1..];
      } else {
        PutKeys(es[1..], key, value);
        assert ([es[0]] + Put(es[1..], key, value))[1..] == Put(es[1..], key, value);
      }
    }
  }

  lemma KeysOfNone()
    ensures Keys([]) == {}
  {
  }

  ghost predicate Unasked(key: string, fields: seq<Field>) { forall f | f in fields :: f.key != key }

  lemma {:induction false} NotAsked(source: map<string, string>, fields: seq<Field>, d: Decimals, key: string)
    requires NormalizeFields(source, fields, d).Ok? && Unasked(key, fields)
    ensures key !in Keys(NormalizeFields(source, fields, d).value)
  {
    hide NormalizeValue, Put, Raw, Keys;
    KeysOfNone();
    if fields != [] {
      var n := |fields| - 1;
      assert fields[n] in fields && forall f | f in fields[..n] :: f in fields;
      NotAsked(source, fields[..n], d, key);
      PutKeys(NormalizeFields(source, fields[..n], d).value, fields[n].key,
              NormalizeValue(fields[n].kind, Raw(source, fields[n].key).value, d).value);
    }
  }

  /** The field is asked for, and no other field has its key. */
  ghost predicate Asked(field: Field, fields: seq<Field>) {
    field in fields && forall f | f in fields :: f.key == field.key ==> f == field
  }

  lemma {:induction false} FieldText(source: map<string, string>, fields: seq<Field>, d: Decimals, field: Field)
    requires NormalizeFields(source, fields, d).Ok? && Asked(field, fields)
    ensures Raw(source, field.key).Some?
    ensures NormalizeValue(field.kind, Raw(source, field.key).value, d)
         == Ok(Text(NormalizeFields(source, fields, d).value, field.key))
  {
    hide NormalizeValue, Put, Raw, Text;
    var n := |fields| - 1;
    assert fields[n] in fields && forall f | f in fields[..n] :: f in fields;
    PutText(NormalizeFields(source, fields[..n], d).value, fields[n].key,
            NormalizeValue(fields[n].kind, Raw(source, fields[n].key).value, d).value, field.key);
    if fields[n].key != field.key {
      assert fields == fields[..n] + [fields[n]];
      FieldText(source, fields[..n], d, field);
    }
  }

  lemma GivenNumber(source: map<string, string>, fields: seq<Field>, d: Decimals, field: Field)
    requires Faithful(d) && NormalizeFields(source, fields, d).Ok? && Asked(field, fields) && field.kind.Number?
    ensures NumberIn(NormalizeFields(source, fields, d).value, field.key, d) == NumberGiven(source, field.key, d)
  {
    hide NormalizeFields, Raw, Text, Strip, Asked;
    FieldText(source, fields, d, field);
  }

  lemma GivenInt(source: map<string, string>, fields: seq<Field>, d: Decimals, field: Field)
    requires NormalizeFields(source, fields, d).Ok? && Asked(field, fields) && field.kind.Integer?
    ensures IntIn(NormalizeFields(source, fields, d).value, field.key) == IntGiven(source, field.key)
  {
    hide NormalizeFields, Raw, Text, Strip, Asked, IntOf, ShowInt, IsIntText;
    FieldText(source, fields, d, field);
    ShowIntReads(IntGiven(source, field.key));
  }

  // ------------------------------------------------------------------ the fields that are compared

  const EXIT_Z := Field("exit_z_score", Number(None, Some(0.0), None))
  const ENTRY_Z := Field("entry_z_score", POSITIVE)
  const MAX_ENTRY_Z := Field("max_entry_z_score", POSITIVE)
  const MIN_STOP := Field("min_stop_loss", FRACTION)
  const MAX_STOP := Field("max_stop_loss", FRACTION)
  const REFRESH := Field("executor_refresh_time", Integer(Some(1), None))
  const COOLDOWN := Field("cooldown_time", Integer(Some(1), None))
  const STOP_COOLDOWN := Field("stop_loss_cooldown_time", Integer(Some(1), None))
  const TIME_LIMIT := Field("time_limit", Integer(Some(60), None))

  /** Length and first letter tell all but two of the compared keys from every other key. */
  function Sign(key: string): (int, char) { (|key|, if key == [] then ' ' else key[0]) }

  ghost predicate Signed(fields: seq<Field>, signs: set<(int, char)>) { forall f | f in fields :: Sign(f.key) in signs }

  const PAIR_SIGNS: set<(int, char)> := {(8, 'l'), (18, 't'), (17, 't'), (25, 'f')}
  const SIGNAL_SIGNS: set<(int, char)> := {(16, 'c'), (11, 'm'), (13, 'e'), (17, 'm'), (12, 'e')}
  const STOP_SIGNS: set<(int, char)> := {(11, 'm'), (10, 'a'), (19, 'a'), (13, 'm')}
  const COST_SIGNS: set<(int, char)> := {(19, 'r'), (16, 'm'), (15, 'm'), (16, 'q'), (22, 'm')}
  const TIME_SIGNS: set<(int, char)> := {(21, 'e'), (13, 'c'), (23, 's'), (10, 't'), (18, 'm')}

  lemma PairSigns()
    ensures Signed(PAIR_FIELDS, PAIR_SIGNS)
  {
  }

  lemma SignalSigns()
    ensures Signed(SIGNAL_FIELDS, SIGNAL_SIGNS)
  {
  }

  lemma StopSigns()
    ensures Signed(STOP_FIELDS, STOP_SIGNS)
  {
  }

  lemma CostSigns()
    ensures Signed(COST_FIELDS, COST_SIGNS)
  {
  }

  lemma TimeSigns()
    ensures Signed(TIME_FIELDS, TIME_SIGNS)
  {
  }

  ghost predicate Apart(key: string, signs: set<(int, char)>) { Sign(key) !in signs }

  lemma OtherSign(fields: seq<Field>, signs: set<(int, char)>, key: string)
    requires Signed(fields, signs) && Apart(key, signs)
    ensures Unasked(key, fields)
  {
    hide Sign;
  }

  lemma AskedSignals()
    ensures Asked(EXIT_Z, SIGNAL_FIELDS) && Asked(ENTRY_Z, SIGNAL_FIELDS) && Asked(MAX_ENTRY_Z, SIGNAL_FIELDS)
  {
  }

  lemma AskedStops()
    ensures Asked(MIN_STOP, STOP_FIELDS) && Asked(MAX_STOP, STOP_FIELDS)
  {
    assert "min_stop_loss"[1] != "max_stop_loss"[1];
  }

  lemma AskedTimes()
    ensures Asked(REFRESH, TIME_FIELDS) && Asked(COOLDOWN, TIME_FIELDS)
    ensures Asked(STOP_COOLDOWN, TIME_FIELDS) && Asked(TIME_LIMIT, TIME_FIELDS)
  {
  }

  lemma Beside(f: Field, a: seq<Field>, b: seq<Field>)
    ensures Asked(f, a) && Unasked(f.key, b) ==> Asked(f, a + b)
    ensures Unasked(f.key, a) && Asked(f, b) ==> Asked(f, a + b)
    ensures Unasked(f.key, a) && Unasked(f.key, b) ==> Unasked(f.key, a + b)
  {
  }

  // Signs that only the named section has.

  ghost predicate SignalKeyOnly(key: string) {
    Apart(key, STOP_SIGNS) && Apart(key, COST_SIGNS) && Apart(key, TIME_SIGNS) && Apart(key, PAIR_SIGNS)
  }

  ghost predicate StopKeyOnly(key: string) {
    Apart(key, SIGNAL_SIGNS) && Apart(key, COST_SIGNS) && Apart(key, TIME_SIGNS) && Apart(key, PAIR_SIGNS)
  }

  ghost predicate TimeKeyOnly(key: string) {
    Apart(key, SIGNAL_SIGNS) && Apart(key, STOP_SIGNS) && Apart(key, COST_SIGNS) && Apart(key, PAIR_SIGNS)
  }

  /** Every compared value is asked for once, and in the shared form only. */
  ghost predicate SharedOnly(f: Field) { Asked(f, SHARED_FIELDS) && Unasked(f.key, PAIR_FIELDS) }

  lemma OfSignals(f: Field)
    requires Asked(f, SIGNAL_FIELDS)
    requires SignalKeyOnly(f.key)
    ensures SharedOnly(f)
  {
    hide Asked, Unasked, Signed, Apart;
    StopSigns();
    CostSigns();
    TimeSigns();
    PairSigns();
    OtherSign(STOP_FIELDS, STOP_SIGNS, f.key);
    OtherSign(COST_FIELDS, COST_SIGNS, f.key);
    OtherSign(TIME_FIELDS, TIME_SIGNS, f.key);
    OtherSign(PAIR_FIELDS, PAIR_SIGNS, f.key);
    Beside(f, SIGNAL_FIELDS, STOP_FIELDS);
    Beside(f, SIGNAL_FIELDS + STOP_FIELDS, COST_FIELDS);
    Beside(f, SIGNAL_FIELDS + STOP_FIELDS + COST_FIELDS, TIME_FIELDS);
  }

  lemma OfStops(f: Field)
    requires Asked(f, STOP_FIELDS)
    requires StopKeyOnly(f.key)
    ensures SharedOnly(f)
  {
    hide Asked, Unasked, Signed, Apart;
    SignalSigns();
    CostSigns();
    TimeSigns();
    PairSigns();
    OtherSign(SIGNAL_FIELDS, SIGNAL_SIGNS, f.key);
    OtherSign(COST_FIELDS, COST_SIGNS, f.key);
    OtherSign(TIME_FIELDS, TIME_SIGNS, f.key);
    OtherSign(PAIR_FIELDS, PAIR_SIGNS, f.key);
    Beside(f, SIGNAL_FIELDS, STOP_FIELDS);
    Beside(f, SIGNAL_FIELDS + STOP_FIELDS, COST_FIELDS);
    Beside(f, SIGNAL_FIELDS + STOP_FIELDS + COST_FIELDS, TIME_FIELDS);
  }

  lemma OfTimes(f: Field)
    requires Asked(f, TIME_FIELDS)
    requires TimeKeyOnly(f.key)
    ensures SharedOnly(f)
  {
    hide Asked, Unasked, Signed, Apart;
    SignalSigns();
    StopSigns();
    CostSigns();
    PairSigns();
    OtherSign(SIGNAL_FIELDS, SIGNAL_SIGNS, f.key);
    OtherSign(STOP_FIELDS, STOP_SIGNS, f.key);
    OtherSign(COST_FIELDS, COST_SIGNS, f.key);
    OtherSign(PAIR_FIELDS, PAIR_SIGNS, f.key);
    Beside(f, SIGNAL_FIELDS, STOP_FIELDS);
    Beside(f, SIGNAL_FIELDS + STOP_FIELDS, COST_FIELDS);
    Beside(f, SIGNAL_FIELDS + STOP_FIELDS + COST_FIELDS, TIME_FIELDS);
  }

  lemma SignalKeysApart()
    ensures SignalKeyOnly(EXIT_Z.key)
    ensures SignalKeyOnly(ENTRY_Z.key)
    ensures SignalKeyOnly(MAX_ENTRY_Z.key)
  {
  }

  lemma ComparedSignals()
    ensures SharedOnly(EXIT_Z) && SharedOnly(ENTRY_Z) && SharedOnly(MAX_ENTRY_Z)
  {
    hide *;
    SignalKeysApart();
    AskedSignals();
    OfSignals(EXIT_Z);
    OfSignals(ENTRY_Z);
    OfSignals(MAX_ENTRY_Z);
  }

  lemma StopKeysApart()
    ensures StopKeyOnly(MIN_STOP.key)
    ensures StopKeyOnly(MAX_STOP.key)
  {
  }

  lemma ComparedStops()
    ensures SharedOnly(MIN_STOP) && SharedOnly(MAX_STOP)
  {
    hide *;
    StopKeysApart();
    AskedStops();
    OfStops(MIN_STOP);
    OfStops(MAX_STOP);
  }

  lemma TimeKeysApart()
    ensures TimeKeyOnly(REFRESH.key)
    ensures TimeKeyOnly(COOLDOWN.key)
    ensures TimeKeyOnly(STOP_COOLDOWN.key)
    ensures TimeKeyOnly(TIME_LIMIT.key)
  {
  }

  lemma ComparedTimes()
    ensures SharedOnly(REFRESH) && SharedOnly(COOLDOWN) && SharedOnly(STOP_COOLDOWN) && SharedOnly(TIME_LIMIT)
  {
    hide *;
    TimeKeysApart();
    AskedTimes();
    OfTimes(REFRESH);
    OfTimes(COOLDOWN);
    OfTimes(STOP_COOLDOWN);
    OfTimes(TIME_LIMIT);
  }

  // ------------------------------------------------------------------ whole payloads

  /** The values written to one pair's file, as far as they are compared, are the shared ones. */
  lemma SharedText(shared: seq<Entry>, pair: map<string, string>, d: Decimals, f: Field)
    requires NormalizeFields(pair, PAIR_FIELDS, d).Ok? && SharedOnly(f)
    ensures Text(Merge(shared, NormalizeFields(pair, PAIR_FIELDS, d).value), f.key) == Text(shared, f.key)
  {
    hide Text, Merge, NormalizeFields;
    NotAsked(pair, PAIR_FIELDS, d, f.key);
    MergeText(shared, NormalizeFields(pair, PAIR_FIELDS, d).value, f.key);
  }

  /** The cross checks of a pair do not depend on the pair: they compare the numbers of the shared form. */
  lemma RelatedIff(p: Payload, pair: map<string, string>, d: Decimals)
    requires Faithful(d)
    requires NormalizeFields(p.shared, SHARED_FIELDS, d).Ok? && NormalizeFields(pair, PAIR_FIELDS, d).Ok?
    ensures var shared := NormalizeFields(p.shared, SHARED_FIELDS, d).value;
            Related(Merge(shared, NormalizeFields(pair, PAIR_FIELDS, d).value), d) <==> Consistent(p.shared, d)
  {
    hide Faithful, NormalizeFields, Merge, Text, NumberGiven, IntGiven, Asked, Unasked;
    var shared := NormalizeFields(p.shared, SHARED_FIELDS, d).value;
    ComparedSignals();
    ComparedStops();
    ComparedTimes();
    SharedText(shared, pair, d, EXIT_Z);
    SharedText(shared, pair, d, ENTRY_Z);
    SharedText(shared, pair, d, MAX_ENTRY_Z);
    SharedText(shared, pair, d, MIN_STOP);
    SharedText(shared, pair, d, MAX_STOP);
    SharedText(shared, pair, d, REFRESH);
    SharedText(shared, pair, d, COOLDOWN);
    SharedText(shared, pair, d, STOP_COOLDOWN);
    SharedText(shared, pair, d, TIME_LIMIT);
    GivenNumber(p.shared, SHARED_FIELDS, d, EXIT_Z);
    GivenNumber(p.shared, SHARED_FIELDS, d, ENTRY_Z);
    GivenNumber(p.shared, SHARED_FIELDS, d, MAX_ENTRY_Z);
    GivenNumber(p.shared, SHARED_FIELDS, d, MIN_STOP);
    GivenNumber(p.shared, SHARED_FIELDS, d, MAX_STOP);
    GivenInt(p.shared, SHARED_FIELDS, d, REFRESH);
    GivenInt(p.shared, SHARED_FIELDS, d, COOLDOWN);
    GivenInt(p.shared, SHARED_FIELDS, d, STOP_COOLDOWN);
    GivenInt(p.shared, SHARED_FIELDS, d, TIME_LIMIT);
  }

  predicate PairsFilled(pairs: seq<map<string, string>>, d: Decimals) {
    forall pair | pair in pairs :: FormFilled(pair, PAIR_FIELDS, d)
  }

  lemma PairsSnoc(pairs: seq<map<string, string>>, d: Decimals)
    requires pairs != []
    ensures PairsFilled(pairs, d)
       <==> PairsFilled(pairs[..|pairs| - 1], d) && FormFilled(pairs[|pairs| - 1], PAIR_FIELDS, d)
  {
    hide FormFilled;
    var n := |pairs| - 1;
    assert pairs == pairs[..n] + [pairs[n]];
  }

  lemma {:induction false} PairsFilledIff(p: Payload, n: nat, d: Decimals)
    requires Faithful(d) && NormalizeFields(p.shared, SHARED_FIELDS, d).Ok? && n <= |p.pairs|
    ensures PairEdits(p.pairs[..n], NormalizeFields(p.shared, SHARED_FIELDS, d).value, d).Ok?
       <==> PairsFilled(p.pairs[..n], d) && (n == 0 || Consistent(p.shared, d))
  {
    hide Faithful, NormalizeFields, Merge, Related, FormFilled, Consistent, FileOf;
    if n > 0 {
      PairsFilledIff(p, n - 1, d);
      PairsSnoc(p.pairs[..n], d);
      assert p.pairs[..n][..n - 1] == p.pairs[..n - 1];
      hide PairsFilled;
      var pair := p.pairs[n - 1];
      FormFilledIff(pair, PAIR_FIELDS, d);
      if NormalizeFields(pair, PAIR_FIELDS, d).Ok? {
        RelatedIff(p, pair, d);
      }
    }
  }

  /** A payload is accepted exactly when it names every active file once, every file can be read, every field
      fits, and the submitted shared numbers are in order. */
  lemma AcceptedIff(names: seq<string>, files: set<string>, p: Payload, d: Decimals)
    requires Faithful(d)
    ensures Edits(names, files, p, d).Ok?
       <==> && multiset(FilesOf(p.pairs)) == multiset(names)
            && (forall name | name in names :: name in files)
            && FormFilled(p.shared, SHARED_FIELDS, d)
            && PairsFilled(p.pairs, d)
            && (p.pairs == [] || Consistent(p.shared, d))
  {
    hide Faithful, NormalizeFields, PairEdits, FilesOf, FormFilled, PairsFilled, Consistent;
    FormFilledIff(p.shared, SHARED_FIELDS, d);
    if multiset(FilesOf(p.pairs)) == multiset(names) {
      SameNames(FilesOf(p.pairs), names);
    }
    assert p.pairs[..|p.pairs|] == p.pairs;
    if NormalizeFields(p.shared, SHARED_FIELDS, d).Ok? {
      PairsFilledIff(p, |p.pairs|, d);
    }
  }

  lemma SameNames(incoming: seq<string>, names: seq<string>)
    requires multiset(incoming) == multiset(names)
    ensures forall name :: name in incoming <==> name in names
  {
    forall name ensures name in incoming <==> name in names {
      assert name in multiset(incoming) <==> name in multiset(names);
    }
  }
}
