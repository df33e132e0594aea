/** The sensor classifier of the grid (`SENSOR_CATALOG` and `pickSensorMeta`
    in src/components/SensorsGrid.tsx): a key is given an icon, a unit and a
    colour tone by fixed rules for six short keys, then by the first catalog
    entry one of whose keywords occurs in the normalized key, then by a
    default. */
module SensorCatalog {
  import opened Wrappers
  import opened Text
  import opened SensorKeys

  /** The icons the grid draws, by their icon-set names. */
  datatype Icon =
    | Thermometer | Snowflake | Gauge | Wind | Activity | Lightbulb | Sprout
    | Leaf | Waves | Battery | Zap | Wifi | CloudRain | Sun | Flame | Percent
    | Ruler | AlarmClock | Microchip | FlaskConical | Eye

  datatype SensorMeta = SensorMeta(icon: Icon, unit: string, tone: string)

  datatype CatalogItem = CatalogItem(keywords: seq<string>, meta: SensorMeta)

  /** The catalog entries, one constant each. Keywords are as written; the
      search normalizes them. */
  const TEMPERATURE := CatalogItem(["temp", "temperature", "temperature_c", "t_c", "t_f", "heat"], SensorMeta(Thermometer, "°C", "hot"))
  const HUMIDITY := CatalogItem(["hum", "humidity", "humidity_rh", "rh", "humid"], SensorMeta(Snowflake, "%", "wet"))
  const PRESSURE := CatalogItem(["pressure", "bar", "psi", "kpa", "hpa"], SensorMeta(Gauge, "", "neutral"))
  const GAS := CatalogItem(["co2", "carbon", "ppm", "gas", "mq", "smoke"], SensorMeta(Wind, "ppm", "warning"))
  const AIR_QUALITY := CatalogItem(["voc", "aqi", "airquality", "air_quality"], SensorMeta(Activity, "", "warning"))
  const LIGHT := CatalogItem(["lux", "light", "ldr", "illum"], SensorMeta(Lightbulb, "lux", "sun"))
  const SOIL_MOISTURE := CatalogItem(["soil", "moist", "moisture", "vwc"], SensorMeta(Sprout, "%", "plant"))
  const NITROGEN := CatalogItem(["N"], SensorMeta(Leaf, "ppm", "nitrogen"))
  const PHOSPHORUS := CatalogItem(["P"], SensorMeta(Leaf, "ppm", "phosphorus"))
  const POTASSIUM := CatalogItem(["K"], SensorMeta(Leaf, "ppm", "potassium"))
  const ACIDITY := CatalogItem(["acidity", "alkaline", "Ph"], SensorMeta(Leaf, "", "plant"))
  const CONDUCTIVITY := CatalogItem(["ec", "tds", "conduct", "conductivity"], SensorMeta(Sprout, "ppm", "plant"))
  const WATER := CatalogItem(["level", "waterlevel", "water_level", "flow", "lpm", "ml", "litre"], SensorMeta(Waves, "", "wet"))
  const VOLTAGE := CatalogItem(["volt", "voltage", "vbat", "battery", "bat", "vb"], SensorMeta(Battery, "V", "power"))
  const CURRENT := CatalogItem(["amp", "current", "ma", "a"], SensorMeta(Zap, "A", "power"))
  const POWER := CatalogItem(["watt", "power", "kw", "wh"], SensorMeta(Zap, "W", "power"))
  const SIGNAL := CatalogItem(["rssi", "signal", "wifi", "ssid", "lte", "gsm", "Rssi"], SensorMeta(Wifi, "", "wet"))
  const RAIN := CatalogItem(["rain", "rainfall"], SensorMeta(CloudRain, "", "wet"))
  const SUN := CatalogItem(["sun", "uv", "uvi"], SensorMeta(Sun, "", "sun"))
  const FLAME := CatalogItem(["flame", "fire"], SensorMeta(Flame, "", "danger"))
  const PERCENTAGE := CatalogItem(["percent", "pct"], SensorMeta(Percent, "%", "neutral"))
  const DISTANCE := CatalogItem(["distance", "cm", "mm", "meter", "m"], SensorMeta(Ruler, "", "neutral"))
  const RUNTIME := CatalogItem(["uptime", "runtime", "seconds", "sec", "mins", "minutes", "timer", "Up", "up"], SensorMeta(AlarmClock, "", "neutral"))
  const SYSTEM := CatalogItem(["cpu", "ram", "mem", "heap", "disk", "storage", "fw", "Fw"], SensorMeta(Microchip, "", "sun"))

  /** The catalog, in the order it is searched. */
  const SENSOR_CATALOG: seq<CatalogItem> := [
    TEMPERATURE, HUMIDITY, PRESSURE, GAS, AIR_QUALITY, LIGHT,
    SOIL_MOISTURE, NITROGEN, PHOSPHORUS, POTASSIUM, ACIDITY, CONDUCTIVITY,
    WATER, VOLTAGE, CURRENT, POWER, SIGNAL, RAIN,
    SUN, FLAME, PERCENTAGE, DISTANCE, RUNTIME, SYSTEM
  ]

  /** What a key that nothing recognises gets. */
  const DEFAULT_META := SensorMeta(Eye, "", "neutral")

  /** The fixed rules tried before the catalog, on the normalized key. */
  function ExactMeta(nk: string): (r: Option<SensorMeta>)
    ensures r.Some? <==> nk in ["t", "h", "ph", "n", "p", "k"]
  {
    if nk == "t" then Some(SensorMeta(Thermometer, "°C", "hot"))
    else if nk == "h" then Some(SensorMeta(Snowflake, "%", "wet"))
    else if nk == "ph" then Some(SensorMeta(FlaskConical, "", "plant"))
    else if nk == "n" then Some(SensorMeta(Leaf, "ppm", "nitrogen"))
    else if nk == "p" then Some(SensorMeta(Leaf, "ppm", "phosphorus"))
    else if nk == "k" then Some(SensorMeta(Leaf, "ppm", "potassium"))
    else None
  }

  /** How one keyword is tested against a normalized key. */
  type KeywordTest = (string, string) -> bool

  /** `nk.includes(normalizeKey(kw))`: the test the grid applies. */
  predicate KeywordIn(nk: string, kw: string) {
    Includes(nk, NormalizeKey(kw))
  }

  /** `keywords.some(kw => test(nk, kw))`. */
  predicate AnyKeyword(nk: string, keywords: seq<string>, test: KeywordTest) {
    keywords != [] && (test(nk, keywords[0]) || AnyKeyword(nk, keywords[1..], test))
  }

  /** The catalog entry `item` matches the normalized key `nk`. */
  predicate EntryMatches(nk: string, item: CatalogItem, test: KeywordTest) {
    AnyKeyword(nk, item.keywords, test)
  }

  /** A keyword that passes makes the entry match. */
  lemma {:induction false} AnyKeywordAt(nk: string, keywords: seq<string>, test: KeywordTest, w: nat)
    requires w < |keywords| && test(nk, keywords[w])
    ensures AnyKeyword(nk, keywords, test)
  {
    if w > 0 {
      AnyKeywordAt(nk, keywords[1..], test, w - 1);
    }
  }

  /** An entry matches only through one of its keywords. */
  lemma {:induction false} AnyKeywordWhich(nk: string, keywords: seq<string>, test: KeywordTest) returns (w: nat)
    requires AnyKeyword(nk, keywords, test)
    ensures w < |keywords| && test(nk, keywords[w])
  {
    if test(nk, keywords[0]) {
      w := 0;
    } else {
      var v := AnyKeywordWhich(nk, keywords[1..], test);
      assert keywords[1..][v] == keywords[v + 1];
      w := v + 1;
    }
  }

  /** The `for...of` over `catalog`, from entry `from` on: the first entry
      that matches, and no entry before it does. */
  function CatalogSearch(nk: string, catalog: seq<CatalogItem>, from: nat, test: KeywordTest): (r: Option<nat>)
    requires from <= |catalog|
    ensures r.Some? ==> from <= r.value < |catalog| && EntryMatches(nk, catalog[r.value], test)
    ensures forall i {:trigger EntryMatches(nk, catalog[i], test)} :: from <= i < |catalog| && (r.None? || i < r.value) ==> !EntryMatches(nk, catalog[i], test)
    decreases |catalog| - from
  {
    if from == |catalog| then None
    else if EntryMatches(nk, catalog[from], test) then Some(from)
    else CatalogSearch(nk, catalog, from + 1, test)
  }

  /** The search stops at the first entry that matches. */
  lemma SearchFinds(nk: string, catalog: seq<CatalogItem>, test: KeywordTest, i: nat)
    requires i < |catalog| && EntryMatches(nk, catalog[i], test)
    requires forall j {:trigger EntryMatches(nk, catalog[j], test)} :: 0 <= j < i ==> !EntryMatches(nk, catalog[j], test)
    ensures CatalogSearch(nk, catalog, 0, test) == Some(i)
  {
  }

  /** The rules of `pickSensorMeta` applied to a normalized key, with
      `test` deciding whether a keyword matches. */
  function Classify(nk: string, test: KeywordTest): SensorMeta {
    match ExactMeta(nk)
    case Some(meta) => meta
    case None =>
      match CatalogSearch(nk, SENSOR_CATALOG, 0, test)
      case Some(i) => SENSOR_CATALOG[i].meta
      case None => DEFAULT_META
  }

  /** No entry of `catalog[..to]` matches the normalized key `nk`. */
  predicate NoneMatches(nk: string, catalog: seq<CatalogItem>, to: nat, test: KeywordTest)
    requires to <= |catalog|
  {
    to == 0 || (!EntryMatches(nk, catalog[to - 1], test) && NoneMatches(nk, catalog, to - 1, test))
  }

  lemma {:induction false} NoneMatchesAll(nk: string, catalog: seq<CatalogItem>, to: nat, test: KeywordTest)
    requires to <= |catalog|
    ensures NoneMatches(nk, catalog, to, test) <==> forall j :: 0 <= j < to ==> !EntryMatches(nk, catalog[j], test)
  {
    if to > 0 {
      NoneMatchesAll(nk, catalog, to - 1, test);
    }
  }

  /** One more entry passed over. */
  lemma NoneMatchesStep(nk: string, catalog: seq<CatalogItem>, to: nat, test: KeywordTest)
    requires to < |catalog| && NoneMatches(nk, catalog, to, test)
    requires !EntryMatches(nk, catalog[to], test)
    ensures NoneMatches(nk, catalog, to + 1, test)
  {
  }

  /** Outside the fixed rules, the first matching catalog entry decides. */
  lemma ClassifyFound(nk: string, test: KeywordTest, i: nat)
    requires ExactMeta(nk).None?
    requires i < |SENSOR_CATALOG| && EntryMatches(nk, SENSOR_CATALOG[i], test)
    requires NoneMatches(nk, SENSOR_CATALOG, i, test)
    ensures Classify(nk, test) == SENSOR_CATALOG[i].meta
  {
    NoneMatchesAll(nk, SENSOR_CATALOG, i, test);
    SearchFinds(nk, SENSOR_CATALOG, test, i);
  }

  /** `pickSensorMeta`, which looks at the normalized key only. */
  function PickSensorMeta(key: string): SensorMeta {
    Classify(NormalizeKey(key), KeywordIn)
  }

  /** The classification depends on the key only through its normal form. */
  lemma PickDependsOnNormalized(key: string)
    ensures PickSensorMeta(NormalizeKey(key)) == PickSensorMeta(key)
  {
    NormalizeIdempotent(key);
  }

  /** A fixed rule that applies is final: the catalog is not consulted. */
  lemma ClassifyExact(nk: string, test: KeywordTest)
    requires ExactMeta(nk).Some?
    ensures Classify(nk, test) == ExactMeta(nk).value
  {
  }

  /** The six short keys get their fixed meta whatever the catalog says. */
  lemma PickExact(key: string)
    requires NormalizeKey(key) in ["t", "h", "ph", "n", "p", "k"]
    ensures PickSensorMeta(key) == ExactMeta(NormalizeKey(key)).value
    ensures NormalizeKey(key) == "p" ==> PickSensorMeta(key) == SensorMeta(Leaf, "ppm", "phosphorus")
    ensures NormalizeKey(key) == "t" ==> PickSensorMeta(key).unit == "°C"
  {
    var nk := NormalizeKey(key);
    ClassifyExact(nk, KeywordIn);
    assert PickSensorMeta(key) == ExactMeta(nk).value;
  }

  /** The first catalog entry that matches a key outside the fixed rules
      decides it, however many later entries match too. */
  lemma FirstMatchWins(key: string, i: nat)
    requires ExactMeta(NormalizeKey(key)).None?
    requires i < |SENSOR_CATALOG| && EntryMatches(NormalizeKey(key), SENSOR_CATALOG[i], KeywordIn)
    requires forall j {:trigger EntryMatches(NormalizeKey(key), SENSOR_CATALOG[j], KeywordIn)} :: 0 <= j < i ==> !EntryMatches(NormalizeKey(key), SENSOR_CATALOG[j], KeywordIn)
    ensures CatalogSearch(NormalizeKey(key), SENSOR_CATALOG, 0, KeywordIn) == Some(i)
    ensures PickSensorMeta(key) == SENSOR_CATALOG[i].meta
  {
    SearchFinds(NormalizeKey(key), SENSOR_CATALOG, KeywordIn, i);
  }

  /** A key that no rule and no keyword recognises gets the default meta. */
  lemma NoMatchDefault(key: string)
    requires ExactMeta(NormalizeKey(key)).None?
    requires forall j {:trigger EntryMatches(NormalizeKey(key), SENSOR_CATALOG[j], KeywordIn)} :: 0 <= j < |SENSOR_CATALOG| ==> !EntryMatches(NormalizeKey(key), SENSOR_CATALOG[j], KeywordIn)
    ensures PickSensorMeta(key) == DEFAULT_META
    ensures PickSensorMeta(key).unit == "" && PickSensorMeta(key).tone == "neutral"
  {
    var r := CatalogSearch(NormalizeKey(key), SENSOR_CATALOG, 0, KeywordIn);
  }

  /** Any key whose normal form contains "temp" is a temperature in °C. */
  lemma TempIsHot(key: string)
    requires Includes(NormalizeKey(key), "temp")
    ensures PickSensorMeta(key) == SensorMeta(Thermometer, "°C", "hot")
  {
    var nk := NormalizeKey(key);
    var at := IncludesWhere(nk, "temp");
    NormalizeClean("temp");
    AnyKeywordAt(nk, SENSOR_CATALOG[0].keywords, KeywordIn, 0);
    FirstMatchWins(key, 0);
  }
}
