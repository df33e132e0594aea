/** What the sensor grid shows for the latest telemetry record
    (src/components/SensorsGrid.tsx): which entries of the record become
    cards and in what order, how a value is written, and the colour classes
    of each tone. */
module SensorDisplay {
  import opened Seqs
  import opened JsValue
  import opened Text
  import LexOrder
  import opened StableSort
  import opened SensorKeys
  import opened SensorCatalog

  /** Keys that are never shown as a card, raw or normalized. */
  const IGNORE_KEYS: set<string> := {
    "_id", "id", "uid", "uuid", "deviceId", "device_id", "chipId", "chip_id", "__v", "ts",
    "timestamp", "createdAt", "updatedAt", "time", "date", "meta", "raw", "up", "fw", "actuators"
  }

  /** `isScalar`: `v == null` (null or undefined) or a string, number or boolean. */
  predicate IsScalar(v: Value) {
    v.Undefined? || v.Null? || v.Str? || v.Num? || v.Bool?
  }

  /** Only arrays and objects are not scalars. */
  lemma ScalarIffNotComposite(v: Value)
    ensures IsScalar(v) <==> !(v.Arr? || v.Obj?)
  {
  }

  // ---------------------------------------------------------------------
  // formatValue

  /** The engine's renderings of a number, which the model does not
      compute: `String(Math.round(x))`, `x.toFixed(1)`, `x.toFixed(2)` and
      `String(x)`. */
  datatype NumberText = NumberText(
    round: real -> string,
    fixed1: real -> string,
    fixed2: real -> string,
    plain: real -> string)

  /** `s.replace(/0$/, "")`: one trailing zero removed. */
  function DropTrailingZero(s: string): (r: string)
    ensures r == s || (s != [] && s[|s| - 1] == '0' && r == s[..|s| - 1])
  {
    if s != [] && s[|s| - 1] == '0' then s[..|s| - 1] else s
  }

  /** `s.replace(/\.0$/, "")`: a trailing ".0" removed. */
  function DropPointZero(s: string): (r: string)
    ensures r == s || (|s| >= 2 && s[|s| - 2..] == ".0" && r == s[..|s| - 2])
  {
    if |s| >= 2 && s[|s| - 2] == '.' && s[|s| - 1] == '0' then s[..|s| - 2] else s
  }

  /** The number branch of `formatValue`: large values rounded, values of
      two digits with one decimal, smaller ones with two, trailing zeros of
      the fraction trimmed. */
  function FormatNumber(x: real, text: NumberText): string {
    var abs := if x < 0.0 then -x else x;
    if abs >= 1000.0 then text.round(x)
    else if abs >= 10.0 then DropPointZero(text.fixed1(x))
    else DropPointZero(DropTrailingZero(text.fixed2(x)))
  }

  /** `String(v)`. An array is its items joined with commas, null and
      undefined items written as nothing. */
  function ToText(v: Value, plain: real -> string): string
    decreases v, if v.Arr? then |v.items| + 1 else 0
  {
    match v
    case Undefined => "undefined"
    case Null => "null"
    case Bool(b) => if b then "true" else "false"
    case Num(x) => plain(x)
    case Str(s) => s
    case Arr(items) => JoinItems(v, 0, plain)
    case Obj(_) => "[object Object]"
  }

  /** The items of the array `whole` from index `i` on, as `join(",")` writes them. */
  function JoinItems(whole: Value, i: nat, plain: real -> string): string
    requires whole.Arr? && i <= |whole.items|
    decreases whole, |whole.items| - i
  {
    if i == |whole.items| then ""
    else
      var item := whole.items[i];
      (if i == 0 then "" else ",")
      + (if item.Undefined? || item.Null? then "" else ToText(item, plain))
      + JoinItems(whole, i + 1, plain)
  }

  /** `formatValue`. */
  function FormatValue(v: Value, text: NumberText): string {
    match v
    case Undefined => "-"
    case Null => "-"
    case Bool(b) => if b then "TRUE" else "FALSE"
    case Num(x) => FormatNumber(x, text)
    case _ => ToText(v, text.plain)
  }

  /** The cases of `formatValue` that involve no number formatting:
      nullish values show a dash, booleans upper case, everything else its
      string form. */
  lemma FormatValueNonNumbers(v: Value, text: NumberText)
    requires !v.Num?
    ensures v.Undefined? || v.Null? ==> FormatValue(v, text) == "-"
    ensures v.Bool? ==> FormatValue(v, text) == (if v.b then "TRUE" else "FALSE")
    ensures !(v.Undefined? || v.Null? || v.Bool?) ==> FormatValue(v, text) == ToText(v, text.plain)
    ensures v.Str? ==> FormatValue(v, text) == v.s
  {
  }

  predicate Digits(s: string) {
    forall c :: c in s ==> '0' <= c <= '9'
  }

  /** An integer as `toFixed` writes it: an optional minus sign, then digits. */
  predicate IntegerText(s: string) {
    s != [] && (if s[0] == '-' then s[1..] != [] && Digits(s[1..]) else Digits(s))
  }

  /** What `toFixed(places)` produces, for `places > 0`: an integer part, a
      point, and exactly `places` digits. */
  predicate FixedText(s: string, places: nat) {
    && |s| > places + 1
    && s[|s| - places - 1] == '.'
    && Digits(s[|s| - places..])
    && IntegerText(s[..|s| - places - 1])
  }

  /** A number text with a fraction does not end in a zero. */
  predicate TrimmedFraction(s: string) {
    '.' in s ==> s[|s| - 1] != '0'
  }

  lemma IntegerHasNoPoint(s: string)
    requires IntegerText(s)
    ensures '.' !in s
  {
    if s[0] == '-' {
      assert s == [s[0]] + s[1..];
    }
  }

  /** The trimming of a `toFixed(2)` text: "x.00" becomes "x", "x.d0"
      becomes "x.d", and "x.dd" ending in another digit is kept. Either way
      no zero is left at the end of a fraction. */
  lemma TrimFixed2(s: string)
    requires FixedText(s, 2)
    ensures var n := |s|; var r := DropPointZero(DropTrailingZero(s));
      && (s[n - 2] == '0' && s[n - 1] == '0' ==> r == s[..n - 3])
      && (s[n - 2] != '0' && s[n - 1] == '0' ==> r == s[..n - 1])
      && (s[n - 1] != '0' ==> r == s)
      && TrimmedFraction(r)
  {
    var n := |s|;
    assert s[n - 2] in s[n - 2..] && s[n - 1] in s[n - 2..];
    var r := DropPointZero(DropTrailingZero(s));
    if s[n - 2] == '0' && s[n - 1] == '0' {
      assert DropTrailingZero(s) == s[..n - 1];
      assert r == s[..n - 3];
      IntegerHasNoPoint(s[..n - 3]);
    } else if s[n - 1] == '0' {
      assert DropTrailingZero(s) == s[..n - 1];
      assert r == s[..n - 1];
    }
  }

  /** The trimming of a `toFixed(1)` text: "x.0" becomes "x", anything else
      is kept, and no zero is left at the end of a fraction. */
  lemma TrimFixed1(s: string)
    requires FixedText(s, 1)
    ensures var n := |s|; var r := DropPointZero(s);
      && (s[n - 1] == '0' ==> r == s[..n - 2])
      && (s[n - 1] != '0' ==> r == s)
      && TrimmedFraction(r)
  {
    var n := |s|;
    if s[n - 1] == '0' {
      IntegerHasNoPoint(s[..n - 2]);
    }
  }

  /** Below 1000 in absolute value, a number never shows a zero at the end of
      its fraction, given that `toFixed` writes what it is specified to. */
  lemma FormatNumberTrimmed(x: real, text: NumberText)
    requires -1000.0 < x < 1000.0
    requires FixedText(text.fixed1(x), 1) && FixedText(text.fixed2(x), 2)
    ensures TrimmedFraction(FormatNumber(x, text))
  {
    TrimFixed1(text.fixed1(x));
    TrimFixed2(text.fixed2(x));
  }

  // ---------------------------------------------------------------------
  // toneClasses

  /** The class strings of the grid's colour families. */
  const RED_CLASSES := "bg-red-500/10 text-red-500 border-red-500/20"
  const GREEN_CLASSES := "bg-green-500/10 text-green-500 border-green-500/20"
  const SKY_CLASSES := "bg-sky-500/10 text-sky-500 border-sky-500/20"
  const AMBER_CLASSES := "bg-amber-500/10 text-amber-500 border-amber-500/20"
  const YELLOW_CLASSES := "bg-yellow-500/10 text-yellow-500 border-yellow-500/20"
  const ORANGE_CLASSES := "bg-orange-500/10 text-orange-500 border-orange-500/20"
  const ROSE_CLASSES := "bg-rose-500/10 text-rose-500 border-rose-500/20"
  const BLUE_CLASSES := "bg-blue-500/10 text-blue-600 border-blue-500/30"
  const PURPLE_CLASSES := "bg-purple-500/10 text-purple-600 border-purple-500/30"
  const EMERALD_CLASSES := "bg-emerald-500/10 text-emerald-600 border-emerald-500/30"
  const ZINC_CLASSES := "bg-zinc-500/10 text-zinc-500 border-zinc-500/20"

  /** `toneClasses`: the background, text and border classes of a tone. */
  function ToneClasses(tone: string): string {
    if tone == "hot" then RED_CLASSES
    else if tone == "lightgreen" then GREEN_CLASSES
    else if tone == "wet" then SKY_CLASSES
    else if tone == "sun" then AMBER_CLASSES
    else if tone == "plant" then GREEN_CLASSES
    else if tone == "power" then YELLOW_CLASSES
    else if tone == "warning" then ORANGE_CLASSES
    else if tone == "danger" then ROSE_CLASSES
    else if tone == "nitrogen" || tone == "n" then BLUE_CLASSES
    else if tone == "phosphorus" || tone == "p" then PURPLE_CLASSES
    else if tone == "potassium" || tone == "k" then EMERALD_CLASSES
    else ZINC_CLASSES
  }

  /** The tone names the switch lists before its default. */
  const NAMED_TONES: set<string> := {
    "hot", "lightgreen", "wet", "sun", "plant", "power", "warning", "danger",
    "nitrogen", "n", "phosphorus", "p", "potassium", "k"
  }

  /** The colour families of the grid. */
  datatype Palette = Red | Green | Sky | Amber | Yellow | Orange | Rose | Blue | Purple | Emerald | Zinc

  /** Which family a tone is meant to be drawn in: each nutrient with its
      one-letter name, "plant" with "lightgreen", and everything else grey. */
  function TonePalette(tone: string): (p: Palette)
    ensures p == Zinc <==> tone !in NAMED_TONES
  {
    if tone == "hot" then Red
    else if tone == "lightgreen" || tone == "plant" then Green
    else if tone == "wet" then Sky
    else if tone == "sun" then Amber
    else if tone == "power" then Yellow
    else if tone == "warning" then Orange
    else if tone == "danger" then Rose
    else if tone == "nitrogen" || tone == "n" then Blue
    else if tone == "phosphorus" || tone == "p" then Purple
    else if tone == "potassium" || tone == "k" then Emerald
    else Zinc
  }

  function PaletteClasses(p: Palette): string {
    match p
    case Red => RED_CLASSES
    case Green => GREEN_CLASSES
    case Sky => SKY_CLASSES
    case Amber => AMBER_CLASSES
    case Yellow => YELLOW_CLASSES
    case Orange => ORANGE_CLASSES
    case Rose => ROSE_CLASSES
    case Blue => BLUE_CLASSES
    case Purple => PURPLE_CLASSES
    case Emerald => EMERALD_CLASSES
    case Zinc => ZINC_CLASSES
  }

  /** The switch draws every tone in its family's classes. */
  lemma ToneClassesByPalette(tone: string)
    ensures ToneClasses(tone) == PaletteClasses(TonePalette(tone))
  {
  }

  /** No two families share their classes. */
  lemma PaletteClassesDistinct(p: Palette, q: Palette)
    requires p != q
    ensures PaletteClasses(p) != PaletteClasses(q)
  {
  }

  /** Two tones are drawn alike exactly when they belong to the same family. */
  lemma ToneClassesAlike(a: string, b: string)
    ensures ToneClasses(a) == ToneClasses(b) <==> TonePalette(a) == TonePalette(b)
  {
    ToneClassesByPalette(a);
    ToneClassesByPalette(b);
    if TonePalette(a) != TonePalette(b) {
      PaletteClassesDistinct(TonePalette(a), TonePalette(b));
    }
  }

  /** The short tone names are aliases of the nutrient tones. */
  lemma NutrientAliases()
    ensures ToneClasses("n") == ToneClasses("nitrogen")
    ensures ToneClasses("p") == ToneClasses("phosphorus")
    ensures ToneClasses("k") == ToneClasses("potassium")
  {
    ToneClassesAlike("n", "nitrogen");
    ToneClassesAlike("p", "phosphorus");
    ToneClassesAlike("k", "potassium");
  }

  /** Any tone the switch does not name is drawn as "neutral". */
  lemma UnknownToneIsNeutral(tone: string)
    requires tone !in NAMED_TONES
    ensures ToneClasses(tone) == ToneClasses("neutral")
  {
    assert "neutral" !in NAMED_TONES;
    ToneClassesAlike(tone, "neutral");
  }

  /** The tones the classifier hands out. */
  const CLASSIFIER_TONES: set<string> := {"hot", "wet", "neutral", "warning", "sun", "plant", "nitrogen", "phosphorus", "potassium", "power", "danger"}

  /** Every tone the classifier can return is one the switch names, or
      "neutral": no card falls into the grey default by accident. */
  lemma ClassifierTones(key: string)
    ensures PickSensorMeta(key).tone in CLASSIFIER_TONES
  {
    ClassifyTones(NormalizeKey(key), KeywordIn);
  }

  lemma ClassifyTones(nk: string, test: KeywordTest)
    ensures Classify(nk, test).tone in CLASSIFIER_TONES
  {
    match ExactMeta(nk)
    case Some(meta) =>
      assert meta.tone in {"hot", "wet", "plant", "nitrogen", "phosphorus", "potassium"};
    case None =>
      match CatalogSearch(nk, SENSOR_CATALOG, 0, test)
      case Some(i) =>
        CatalogTones();
        assert SENSOR_CATALOG[i].meta.tone in CLASSIFIER_TONES;
      case None =>
  }

  lemma ClassifierTonesNamed()
    ensures CLASSIFIER_TONES - {"neutral"} <= NAMED_TONES
  {
  }

  lemma CatalogTones()
    ensures forall i :: 0 <= i < |SENSOR_CATALOG| ==> SENSOR_CATALOG[i].meta.tone in CLASSIFIER_TONES
  {
  }

  // ---------------------------------------------------------------------
  // The entries shown

  /** `Object.entries` of an array: each item under its index. */
  function ArrayEntries(items: seq<Value>): (es: seq<Entry>)
    ensures |es| == |items|
    ensures forall i :: 0 <= i < |items| ==> es[i] == Entry(Decimal(i), items[i])
  {
    seq(|items|, i requires 0 <= i < |items| => Entry(Decimal(i), items[i]))
  }

  /** `Object.entries(t)` for the `t` the grid keeps: the record when it is
      truthy and of type object (arrays included), and nothing otherwise. */
  function TelemetryEntries(v: Value): seq<Entry> {
    match v
    case Obj(fields) => fields
    case Arr(items) => ArrayEntries(items)
    case _ => []
  }

  predicate NotIgnored(e: Entry) {
    e.key !in IGNORE_KEYS
  }

  predicate NormalizedNotIgnored(e: Entry) {
    NormalizeKey(e.key) !in IGNORE_KEYS
  }

  predicate ScalarEntry(e: Entry) {
    IsScalar(e.value)
  }

  /** The collation weight of a normalized key character: "_" before the
      digits, the digits before the letters, each group in its own order. */
  function Rank(c: char): int {
    if c == '_' then 0
    else if '0' <= c <= '9' then 1 + (c - '0') as int
    else if 'a' <= c <= 'z' then 11 + (c - 'a') as int
    else 37 + c as int
  }

  function Ranks(s: string): (r: seq<int>)
    ensures |r| == |s|
    ensures forall i :: 0 <= i < |s| ==> r[i] == Rank(s[i])
  {
    if s == [] then [] else [Rank(s[0])] + Ranks(s[1..])
  }

  /** The sort key of an entry: its normalized key's weights. */
  function KeyOrder(e: Entry): seq<int> {
    Ranks(NormalizeKey(e.key))
  }

  /** `normalizeKey(a).localeCompare(normalizeKey(b)) < 0`. */
  predicate KeyBefore(a: Entry, b: Entry) {
    LexOrder.Less(KeyOrder(a), KeyOrder(b))
  }

  /** The entries that pass the three filters, in record order. */
  function Candidates(v: Value): seq<Entry> {
    Filter(Filter(Filter(TelemetryEntries(v), NotIgnored), NormalizedNotIgnored), ScalarEntry)
  }

  /** The `entries` the grid renders, one card each. */
  function SensorEntries(v: Value): seq<Entry> {
    Sort(Candidates(v), KeyBefore)
  }

  /** Weights order the key characters as the collation does: "_" first, then
      digits in numeric order, then letters in alphabetical order. */
  lemma RankOrder(c: char, d: char)
    requires IsKeyChar(c) && IsKeyChar(d)
    ensures Rank(c) < Rank(d) <==>
      || (c == '_' && d != '_')
      || ('0' <= c <= '9' && 'a' <= d <= 'z')
      || ('0' <= c <= '9' && '0' <= d <= '9' && c < d)
      || ('a' <= c <= 'z' && 'a' <= d <= 'z' && c < d)
    ensures Rank(c) == Rank(d) <==> c == d
  {
  }

  /** Two normalized keys tie in the sort only when they are equal. */
  lemma RanksInjective(s: string, t: string)
    requires forall c :: c in s ==> IsKeyChar(c)
    requires forall c :: c in t ==> IsKeyChar(c)
    requires Ranks(s) == Ranks(t)
    ensures s == t
  {
    forall i | 0 <= i < |s|
      ensures s[i] == t[i]
    {
      assert s[i] in s && t[i] in t;
      RankOrder(s[i], t[i]);
    }
  }

  /** The grid shows exactly the record's entries whose key is not ignored,
      raw or normalized, and whose value is a scalar; nothing for a value that
      is not an object. The cards are ordered by normalized key, and cards
      whose keys normalize alike keep their order in the record. */
  lemma SensorEntriesSpec(v: Value)
    ensures multiset(SensorEntries(v)) == multiset(Candidates(v))
    ensures forall e :: e in SensorEntries(v) <==>
      e in TelemetryEntries(v) && e.key !in IGNORE_KEYS && NormalizeKey(e.key) !in IGNORE_KEYS && IsScalar(e.value)
    ensures SortedBy(SensorEntries(v), KeyOrder)
    ensures forall k :: WithKey(SensorEntries(v), k, KeyOrder) == WithKey(Candidates(v), k, KeyOrder)
    ensures !(v.Obj? || v.Arr?) ==> SensorEntries(v) == []
  {
    var candidates := Candidates(v);
    assert Keyed(KeyBefore, KeyOrder, candidates);
    SortMembers(candidates, KeyBefore);
    SortSorted(candidates, KeyBefore, KeyOrder);
    forall k
      ensures WithKey(SensorEntries(v), k, KeyOrder) == WithKey(candidates, k, KeyOrder)
    {
      SortStable(candidates, KeyBefore, KeyOrder, k);
    }
  }

  /** Adjacent cards are in collation order of their normalized keys; when
      the normalized keys are equal the two are in record order. */
  lemma SensorEntriesOrdered(v: Value, i: nat, j: nat)
    requires i < j < |SensorEntries(v)|
    ensures !LexOrder.Less(KeyOrder(SensorEntries(v)[j]), KeyOrder(SensorEntries(v)[i]))
    ensures KeyOrder(SensorEntries(v)[i]) == KeyOrder(SensorEntries(v)[j]) ==>
      NormalizeKey(SensorEntries(v)[i].key) == NormalizeKey(SensorEntries(v)[j].key)
  {
    SensorEntriesSpec(v);
    var a, b := SensorEntries(v)[i].key, SensorEntries(v)[j].key;
    if KeyOrder(SensorEntries(v)[i]) == KeyOrder(SensorEntries(v)[j]) {
      RanksInjective(NormalizeKey(a), NormalizeKey(b));
    }
  }
}
