/** Synthesis of the labelled training corpus: the constant symptom phrases
    and sentence templates, typo and case noise, and the per-sample
    construction. Every random draw is a parameter: a `random.random()`
    result is a real `coin`, and a `random.choice` or `random.randint`
    result is the index drawn. */
module Dataset {
  import opened Wrappers
  import opened Text
  import Wire

  /** A symptom label as it appears as a key of the phrase map: not empty,
      no white space at either end, and never beginning with the apology
      marker, so that no label can be read as an apology. */
  type Label = s: string | IsLabel(s) witness "x"

  predicate IsLabel(s: string) {
    && |s| > 0
    && !IsPySpace(s[0])
    && !IsPySpace(s[|s| - 1])
    && !StartsWith(s, Wire.ApologyMarker)
  }

  /** A key of the phrase map with its colloquial phrases. */
  datatype Entry = Entry(key: Label, phrases: seq<string>)

  /** Template text around the replacement field: it holds neither `{` nor
      `}`, so the field is the only replacement field of the template and
      there is no brace escape or stray `}` for formatting to act on. */
  type Plain = s: string | '{' !in s && '}' !in s

  /** A sentence template, split at its replacement field: the template
      string is `prefix + "{symptom}" + suffix`. */
  datatype Template = Template(prefix: Plain, suffix: Plain)

  const Field := "{symptom}"

  /** The template string as it is written in the list of templates. */
  function TemplateText(t: Template): string {
    t.prefix + Field + t.suffix
  }

  /** The template with its field filled in. */
  function Fill(t: Template, phrase: string): string {
    t.prefix + phrase + t.suffix
  }

  /** `s.format(symptom=phrase)` for a string whose braces all belong to
      `{symptom}` fields: every occurrence of the field, left to right, is
      replaced. */
  function Substitute(s: string, phrase: string): string
    decreases |s|
  {
    if |s| == 0 then ""
    else if StartsWith(s, Field) then phrase + Substitute(s[|Field|..], phrase)
    else [s[0]] + Substitute(s[1..], phrase)
  }

  /** How many times the field occurs in `s`. */
  function FieldCount(s: string): nat
    decreases |s|
  {
    if |s| == 0 then 0
    else (if StartsWith(s, Field) then 1 else 0) + FieldCount(s[1..])
  }

  /** Without a `{` the field cannot occur, so replacing fields leaves the
      text alone. */
  lemma {:induction false} NoOpenBraceNoField(s: string, phrase: string)
    requires '{' !in s
    ensures FieldCount(s) == 0
    ensures Substitute(s, phrase) == s
    decreases |s|
  {
    if |s| > 0 {
      assert s[0] in s;
      assert forall c :: c in s[1..] ==> c in s;
      NoOpenBraceNoField(s[1..], phrase);
    }
  }

  /** Text without braces has no replacement field and no brace escape, so
      formatting leaves it as it is. */
  lemma NoBraceNoField(s: string, phrase: string)
    requires '{' !in s && '}' !in s
    ensures FieldCount(s) == 0
    ensures Substitute(s, phrase) == s
  {
    NoOpenBraceNoField(s, phrase);
  }

  /** A template that starts with the field and has no other brace holds
      the field once, and formatting replaces just that one. */
  lemma FieldFirst(suffix: Plain, phrase: string)
    ensures FieldCount(Field + suffix) == 1
    ensures Substitute(Field + suffix, phrase) == phrase + suffix
  {
    var s := Field + suffix;
    assert StartsWith(s, Field);
    assert s[|Field|..] == suffix;
    var rest := Field[1..] + suffix;
    assert s[1..] == rest;
    assert forall c :: c in rest ==> c in Field[1..] || c in suffix;
    NoBraceNoField(suffix, phrase);
    NoOpenBraceNoField(rest, phrase);
  }

  /** Every template holds the field exactly once, and formatting it with a
      phrase is filling its one field with that phrase. */
  lemma {:induction false} FieldOnce(t: Template, phrase: string)
    ensures FieldCount(TemplateText(t)) == 1
    ensures Substitute(TemplateText(t), phrase) == Fill(t, phrase)
    decreases |t.prefix|
  {
    var s := TemplateText(t);
    if |t.prefix| == 0 {
      assert s == Field + t.suffix;
      FieldFirst(t.suffix, phrase);
    } else {
      var head := t.prefix[0];
      assert head in t.prefix;
      var tail: Plain := t.prefix[1..];
      var t' := Template(tail, t.suffix);
      assert s == [head] + TemplateText(t');
      assert s[0] == head && s[1..] == TemplateText(t');
      assert s[0] != Field[0];
      FieldOnce(t', phrase);
      assert Fill(t, phrase) == [head] + Fill(t', phrase);
    }
  }

  /** `table[key]`: the phrases of the first entry with that key, or `None`
      where Python raises `KeyError`. */
  function Lookup(entries: seq<Entry>, key: string): Option<seq<string>>
  {
    if |entries| == 0 then None
    else if entries[0].key == key then Some(entries[0].phrases)
    else Lookup(entries[1..], key)
  }

  /** The lookup answers with the phrases of an entry that has the key, and
      fails only when no entry has it. */
  lemma {:induction false} LookupSound(entries: seq<Entry>, key: string)
    ensures Lookup(entries, key).Some? ==>
      exists i :: 0 <= i < |entries| && entries[i].key == key && entries[i].phrases == Lookup(entries, key).value
    ensures Lookup(entries, key).None? ==> forall i :: 0 <= i < |entries| ==> entries[i].key != key
  {
    if |entries| > 0 && entries[0].key != key {
      LookupSound(entries[1..], key);
      if Lookup(entries, key).Some? {
        var i :| 0 <= i < |entries| - 1 && entries[1..][i] == Entry(key, Lookup(entries, key).value);
        assert entries[i + 1] == entries[1..][i];
      } else {
        forall i | 0 <= i < |entries| ensures entries[i].key != key {
          if i > 0 {
            assert entries[i] == entries[1..][i - 1];
          }
        }
      }
    }
  }

  /** `[s.strip() for s in table.keys()]`: the labels a sample can get. */
  function Labels(table: seq<Entry>): (labels: seq<string>)
    ensures |labels| == |table|
  {
    if |table| == 0 then [] else [PyStrip(table[0].key)] + Labels(table[1..])
  }

  /** Stripping changes no key, so the labels are exactly the keys. */
  lemma {:induction false} LabelsAreKeys(table: seq<Entry>)
    ensures forall i :: 0 <= i < |table| ==> Labels(table)[i] == table[i].key
  {
    if |table| > 0 {
      var first := table[0].key;
      StripUnchanged(first, IsPySpace);
      var rest := Labels(table[1..]);
      LabelsAreKeys(table[1..]);
      assert Labels(table) == [first] + rest;
      forall i | 1 <= i < |table|
        ensures Labels(table)[i] == table[i].key
      {
        assert table[1..][i - 1] == table[i];
      }
    }
  }

  const TypoRate: real := 0.3
  const MinTypoLength := 4
  const LowerRate: real := 0.1
  const UpperRate: real := 0.05

  /** The swap index is one `random.randint(0, len(text) - 2)` can return,
      whenever `add_typo` draws one. */
  predicate SwapInRange(text: string, coin: real, at: int) {
    coin <= TypoRate && |text| >= MinTypoLength ==> 0 <= at <= |text| - 2
  }

  /** `add_typo`: with the coin at or below the rate and a text of at least
      four characters, swap the characters at `at` and `at + 1`; otherwise
      return the text. */
  function AddTypo(text: string, coin: real, at: int): (r: string)
    requires SwapInRange(text, coin, at)
    ensures coin > TypoRate || |text| < MinTypoLength ==> r == text
    ensures |r| == |text|
    ensures coin <= TypoRate && |text| >= MinTypoLength ==>
      && r[at] == text[at + 1] && r[at + 1] == text[at]
      && forall j :: 0 <= j < |text| && j != at && j != at + 1 ==> r[j] == text[j]
  {
    if coin > TypoRate || |text| < MinTypoLength then text
    else
      var r := text[..at] + [text[at + 1], text[at]] + text[at + 2..];
      assert text == text[..at] + [text[at], text[at + 1]] + text[at + 2..];
      r
  }

  /** A typo only rearranges the characters: none is lost or added. */
  lemma AddTypoPermutes(text: string, coin: real, at: int)
    requires SwapInRange(text, coin, at)
    ensures multiset(AddTypo(text, coin, at)) == multiset(text)
  {
    if coin <= TypoRate && |text| >= MinTypoLength {
      assert text == text[..at] + [text[at], text[at + 1]] + text[at + 2..];
      assert AddTypo(text, coin, at) == text[..at] + [text[at + 1], text[at]] + text[at + 2..];
    }
  }

  /** Making the same swap again undoes a typo. */
  lemma AddTypoUndo(text: string, coin: real, at: int)
    requires SwapInRange(text, coin, at)
    ensures SwapInRange(AddTypo(text, coin, at), coin, at)
    ensures AddTypo(AddTypo(text, coin, at), coin, at) == text
  {
    var once := AddTypo(text, coin, at);
    var twice := AddTypo(once, coin, at);
    assert forall j :: 0 <= j < |text| ==> twice[j] == text[j];
  }

  /** The case noise: lower-case on one coin, then upper-case on another. */
  function CaseNoise(text: string, lowerCoin: real, upperCoin: real): (r: string)
    ensures upperCoin < UpperRate ==> r == Upper(text) && IsUpperCase(r)
    ensures upperCoin >= UpperRate && lowerCoin < LowerRate ==> r == Lower(text)
    ensures upperCoin >= UpperRate && lowerCoin >= LowerRate ==> r == text
  {
    var lowered := if lowerCoin < LowerRate then Lower(text) else text;
    UpperAbsorbsLower(text);
    if upperCoin < UpperRate then Upper(lowered) else lowered
  }

  /** The random draws of one sample, in the order they are made. `swapAt`
      is the `random.randint` result, which is drawn only when the typo coin
      is at most 0.3 and the text has at least four characters; otherwise
      it is ignored. */
  datatype Draws = Draws(
    labelPick: nat,
    phrasePick: nat,
    templatePick: nat,
    typoCoin: real,
    swapAt: int,
    lowerCoin: real,
    upperCoin: real)

  /** One row of the corpus: the `text` column and the `label` column. */
  datatype Row = Row(text: string, labelName: string)

  /** The draws are ones the random generator can produce: every index is
      in range for the list it is drawn from. `symptoms` is the label list
      the generator draws from. */
  predicate ValidDraws(table: seq<Entry>, symptoms: seq<string>, templates: seq<Template>, d: Draws) {
    && d.labelPick < |symptoms|
    && d.templatePick < |templates|
    && match Lookup(table, symptoms[d.labelPick])
       case None => true
       case Some(ps) =>
         && d.phrasePick < |ps|
         && SwapInRange(Fill(templates[d.templatePick], ps[d.phrasePick]), d.typoCoin, d.swapAt)
  }

  /** One iteration of the generation loop; `None` where the phrase lookup
      would raise `KeyError`. */
  function Sample(table: seq<Entry>, symptoms: seq<string>, templates: seq<Template>, d: Draws): Option<Row>
    requires ValidDraws(table, symptoms, templates, d)
  {
    var symptom := symptoms[d.labelPick];
    match Lookup(table, symptom)
    case None => None
    case Some(ps) =>
      var text := Fill(templates[d.templatePick], ps[d.phrasePick]);
      Some(Row(CaseNoise(AddTypo(text, d.typoCoin, d.swapAt), d.lowerCoin, d.upperCoin), symptom))
  }

  /** The key of any entry is found by the lookup. */
  lemma {:induction false} LookupFindsKey(entries: seq<Entry>, i: nat)
    requires i < |entries|
    ensures Lookup(entries, entries[i].key).Some?
  {
    if i > 0 && entries[0].key != entries[i].key {
      LookupFindsKey(entries[1..], i - 1);
    }
  }

  /** Drawing from the keys, every sample is produced (the phrase lookup
      never fails) and is labelled with the drawn key; before noise its text
      is the chosen template formatted with a phrase listed under that very
      key. */
  lemma SampleSpec(table: seq<Entry>, templates: seq<Template>, d: Draws)
    requires ValidDraws(table, Keys(table), templates, d)
    ensures Lookup(table, table[d.labelPick].key).Some?
    ensures var ps := Lookup(table, table[d.labelPick].key).value;
      var t := templates[d.templatePick];
      && d.phrasePick < |ps|
      && Substitute(TemplateText(t), ps[d.phrasePick]) == Fill(t, ps[d.phrasePick])
      && Sample(table, Keys(table), templates, d) == Some(Row(
           CaseNoise(AddTypo(Fill(t, ps[d.phrasePick]), d.typoCoin, d.swapAt), d.lowerCoin, d.upperCoin),
           table[d.labelPick].key))
  {
    LookupFindsKey(table, d.labelPick);
    var ps := Lookup(table, table[d.labelPick].key).value;
    FieldOnce(templates[d.templatePick], ps[d.phrasePick]);
  }

  /** The keys of the table, in order. */
  function Keys(table: seq<Entry>): (keys: seq<string>)
    ensures |keys| == |table|
    ensures forall i :: 0 <= i < |table| ==> keys[i] == table[i].key
  {
    seq(|table|, i requires 0 <= i < |table| => table[i].key)
  }

  /** A sample drawn from the keys is always produced, with the drawn key as
      its label. */
  lemma SampleDefined(table: seq<Entry>, templates: seq<Template>, d: Draws)
    requires ValidDraws(table, Keys(table), templates, d)
    ensures Sample(table, Keys(table), templates, d).Some?
    ensures Sample(table, Keys(table), templates, d).value.labelName == table[d.labelPick].key
  {
    LookupFindsKey(table, d.labelPick);
  }

  /** `symptoms = [s.strip() for s in SYMPTOM_MAP.keys()]`: since every key
      is already stripped, the list the generator draws from is the keys. */
  method SymptomList(table: seq<Entry>) returns (symptoms: seq<string>)
    ensures symptoms == Keys(table)
  {
    symptoms := Labels(table);
    LabelsAreKeys(table);
    assert forall i :: 0 <= i < |table| ==> symptoms[i] == Keys(table)[i];
  }

  /** The generation loop of `generate_dataset`, before shuffling: one row per
      iteration, `numSamples` rows in all (none when it is negative), each
      labelled with a key of the table. */
  method Generate(table: seq<Entry>, templates: seq<Template>, numSamples: int, draws: seq<Draws>)
    returns (rows: seq<Row>)
    requires numSamples <= |draws|
    requires forall i :: 0 <= i < |draws| ==> ValidDraws(table, Keys(table), templates, draws[i])
    ensures |rows| == if numSamples < 0 then 0 else numSamples
    ensures forall i :: 0 <= i < |rows| ==> Sample(table, Keys(table), templates, draws[i]) == Some(rows[i])
    ensures forall i :: 0 <= i < |rows| ==> rows[i].labelName in Keys(table)
  {
    var symptoms := SymptomList(table);
    rows := [];
    var k := 0;
    while k < numSamples
      invariant 0 <= k <= |draws| && |rows| == k
      invariant numSamples >= 0 ==> k <= numSamples
      invariant numSamples < 0 ==> k == 0
      invariant forall i :: 0 <= i < k ==> Sample(table, symptoms, templates, draws[i]) == Some(rows[i])
      invariant forall i :: 0 <= i < k ==> rows[i].labelName in Keys(table)
    {
      SampleDefined(table, templates, draws[k]);
      var row := Sample(table, symptoms, templates, draws[k]).value;
      assert row.labelName == Keys(table)[draws[k].labelPick];
      rows := rows + [row];
      k := k + 1;
    }
  }
}
