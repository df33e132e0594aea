/** The one-character keywords of the sensor catalog ("N", "P", "K", "a",
    "m") are tested with `includes` like every other keyword, so they match
    any key that merely contains that letter. Every keyword of the rain,
    percent and runtime entries contains such a letter, or "ec", under an
    earlier entry, so those three entries can never be chosen: "rainfall" is
    shown as nitrogen. The single letters are evidently meant to name the
    whole key, as the fixed rules for `n`, `p` and `k` do. */
module CatalogShadowing {
  import opened Wrappers
  import opened Text
  import opened SensorKeys
  import opened SensorCatalog

  /** The normal form of an upper-case letter is its lower-case letter. */
  lemma CapitalNormalForm(c: char)
    requires 'A' <= c <= 'Z'
    ensures NormalizeKey([c]) == [LowerChar(c)]
  {
    NormalizePlain([c]);
    assert Lower([c]) == [LowerChar(c)];
  }

  /** A key that a keyword matches contains every piece of that keyword's
      normal form. */
  lemma Through(nk: string, kw: string, piece: string)
    requires KeywordIn(nk, kw) && Includes(NormalizeKey(kw), piece)
    ensures Includes(nk, piece)
  {
    IncludesTransitive(nk, NormalizeKey(kw), piece);
  }

  /** A clean keyword holding the character `c` passes `c` on to the key. */
  lemma ThroughChar(nk: string, kw: string, c: char)
    requires KeywordIn(nk, kw) && (forall ch :: ch in kw ==> IsKeyChar(ch)) && c in kw
    ensures c in nk
  {
    NormalizeClean(kw);
    IncludesChar(kw, c);
    Through(nk, kw, [c]);
    IncludesChar(nk, c);
  }

  /** An entry whose first keyword normalizes to the character `c` matches
      every key containing `c`. */
  lemma LetterEntry(nk: string, item: CatalogItem, c: char)
    requires item.keywords != [] && NormalizeKey(item.keywords[0]) == [c] && c in nk
    ensures EntryMatches(nk, item, KeywordIn)
  {
    IncludesChar(nk, c);
    AnyKeywordAt(nk, item.keywords, KeywordIn, 0);
  }

  /** The nitrogen entry matches every key containing `n`. */
  lemma NitrogenCatches(nk: string)
    requires 'n' in nk
    ensures EntryMatches(nk, NITROGEN, KeywordIn)
  {
    CapitalNormalForm('N');
    LetterEntry(nk, NITROGEN, 'n');
  }

  /** The phosphorus entry matches every key containing `p`. */
  lemma PhosphorusCatches(nk: string)
    requires 'p' in nk
    ensures EntryMatches(nk, PHOSPHORUS, KeywordIn)
  {
    CapitalNormalForm('P');
    LetterEntry(nk, PHOSPHORUS, 'p');
  }

  /** The distance entry, through its keyword "m", matches every key
      containing `m`. */
  lemma DistanceCatches(nk: string)
    requires 'm' in nk
    ensures EntryMatches(nk, DISTANCE, KeywordIn)
  {
    NormalizeClean("m");
    IncludesChar(nk, 'm');
    AnyKeywordAt(nk, DISTANCE.keywords, KeywordIn, 4);
  }

  /** The conductivity entry, through its keyword "ec", matches every key
      containing "ec". */
  lemma ConductivityCatches(nk: string)
    requires Includes(nk, "ec")
    ensures EntryMatches(nk, CONDUCTIVITY, KeywordIn)
  {
    NormalizeClean("ec");
    AnyKeywordAt(nk, CONDUCTIVITY.keywords, KeywordIn, 0);
  }

  lemma RainKeywords(w: nat)
    requires w < |RAIN.keywords|
    ensures (forall ch :: ch in RAIN.keywords[w] ==> IsKeyChar(ch)) && 'n' in RAIN.keywords[w]
  {
  }

  /** Whatever key the rain entry matches, the nitrogen entry matches too. */
  lemma RainShadowed(nk: string)
    requires EntryMatches(nk, RAIN, KeywordIn)
    ensures EntryMatches(nk, NITROGEN, KeywordIn)
  {
    var w := AnyKeywordWhich(nk, RAIN.keywords, KeywordIn);
    RainKeywords(w);
    ThroughChar(nk, RAIN.keywords[w], 'n');
    NitrogenCatches(nk);
  }

  lemma PercentKeywords(w: nat)
    requires w < |PERCENTAGE.keywords|
    ensures (forall ch :: ch in PERCENTAGE.keywords[w] ==> IsKeyChar(ch)) && 'p' in PERCENTAGE.keywords[w]
  {
  }

  /** Whatever key the percent entry matches, the phosphorus entry matches
      too. */
  lemma PercentShadowed(nk: string)
    requires EntryMatches(nk, PERCENTAGE, KeywordIn)
    ensures EntryMatches(nk, PHOSPHORUS, KeywordIn)
  {
    var w := AnyKeywordWhich(nk, PERCENTAGE.keywords, KeywordIn);
    PercentKeywords(w);
    ThroughChar(nk, PERCENTAGE.keywords[w], 'p');
    PhosphorusCatches(nk);
  }

  /** The runtime keywords other than "Up": each is clean, and holds `p`, `n`,
      `m` or "ec". */
  lemma RuntimeKeywords(w: nat)
    requires w < |RUNTIME.keywords| && w != 7
    ensures forall ch :: ch in RUNTIME.keywords[w] ==> IsKeyChar(ch)
    ensures w == 0 || w == 8 ==> 'p' in RUNTIME.keywords[w]
    ensures w in {1, 2, 4, 5} ==> 'n' in RUNTIME.keywords[w]
    ensures w == 6 ==> 'm' in RUNTIME.keywords[w]
    ensures w == 3 ==> |RUNTIME.keywords[w]| == 3 && RUNTIME.keywords[w][1..3] == "ec"
  {
  }

  /** A two-letter keyword "Xp" with an upper-case first letter, such as
      "Up", normalizes to its lower-case form, which holds `p`; a key it
      matches holds `p` too. */
  lemma CapitalPairPasses(nk: string, kw: string)
    requires KeywordIn(nk, kw)
    requires |kw| == 2 && 'A' <= kw[0] <= 'Z' && kw[1] == 'p'
    ensures 'p' in nk
  {
    assert forall c :: c in kw ==> c == kw[0] || c == kw[1];
    NormalizePlain(kw);
    var lowered := Lower(kw);
    assert lowered[1] == 'p';
    IncludesChar(lowered, 'p');
    Through(nk, kw, "p");
    IncludesChar(nk, 'p');
  }

  /** A runtime keyword holding `p` sends its keys to the phosphorus entry. */
  lemma RuntimeViaP(nk: string, w: nat)
    requires w < |RUNTIME.keywords| && KeywordIn(nk, RUNTIME.keywords[w])
    requires w == 0 || w == 7 || w == 8
    ensures EntryMatches(nk, PHOSPHORUS, KeywordIn)
  {
    if w == 7 {
      CapitalPairPasses(nk, RUNTIME.keywords[w]);
    } else {
      RuntimeKeywords(w);
      ThroughChar(nk, RUNTIME.keywords[w], 'p');
    }
    PhosphorusCatches(nk);
  }

  /** A runtime keyword holding `n` sends its keys to the nitrogen entry. */
  lemma RuntimeViaN(nk: string, w: nat)
    requires w < |RUNTIME.keywords| && KeywordIn(nk, RUNTIME.keywords[w])
    requires w in {1, 2, 4, 5}
    ensures EntryMatches(nk, NITROGEN, KeywordIn)
  {
    RuntimeKeywords(w);
    ThroughChar(nk, RUNTIME.keywords[w], 'n');
    NitrogenCatches(nk);
  }

  /** A key that a clean keyword matches contains every piece of that
      keyword. */
  lemma ThroughPiece(nk: string, kw: string, piece: string, at: nat)
    requires KeywordIn(nk, kw) && (forall ch :: ch in kw ==> IsKeyChar(ch))
    requires at + |piece| <= |kw| && kw[at..at + |piece|] == piece
    ensures Includes(nk, piece)
  {
    NormalizeClean(kw);
    IncludesAt(kw, piece, at);
    Through(nk, kw, piece);
  }

  /** A clean three-letter keyword ending in "ec", such as "sec", passes
      "ec" on to its keys. */
  lemma RuntimeViaEc(nk: string, kw: string)
    requires KeywordIn(nk, kw) && (forall ch :: ch in kw ==> IsKeyChar(ch))
    requires |kw| == 3 && kw[1..3] == "ec"
    ensures Includes(nk, "ec")
  {
    ThroughPiece(nk, kw, kw[1..3], 1);
  }

  /** "timer" sends its keys to the distance entry. */
  lemma RuntimeViaM(nk: string, w: nat)
    requires w < |RUNTIME.keywords| && KeywordIn(nk, RUNTIME.keywords[w])
    requires w == 6
    ensures EntryMatches(nk, DISTANCE, KeywordIn)
  {
    RuntimeKeywords(w);
    ThroughChar(nk, RUNTIME.keywords[w], 'm');
    DistanceCatches(nk);
  }

  /** Whatever key the runtime entry matches, the nitrogen, phosphorus,
      conductivity or distance entry matches too. */
  lemma RuntimeShadowed(nk: string)
    requires EntryMatches(nk, RUNTIME, KeywordIn)
    ensures || EntryMatches(nk, NITROGEN, KeywordIn)
            || EntryMatches(nk, PHOSPHORUS, KeywordIn)
            || EntryMatches(nk, CONDUCTIVITY, KeywordIn)
            || EntryMatches(nk, DISTANCE, KeywordIn)
  {
    var w := AnyKeywordWhich(nk, RUNTIME.keywords, KeywordIn);
    if w == 0 || w == 7 || w == 8 {
      RuntimeViaP(nk, w);
    } else if w == 3 {
      RuntimeKeywords(w);
      RuntimeViaEc(nk, RUNTIME.keywords[w]);
      ConductivityCatches(nk);
    } else if w == 6 {
      RuntimeViaM(nk, w);
    } else {
      RuntimeViaN(nk, w);
    }
  }

  /** Where the named entries sit in the catalog. */
  lemma CatalogPositions()
    ensures |SENSOR_CATALOG| == 24
    ensures SENSOR_CATALOG[7] == NITROGEN && SENSOR_CATALOG[8] == PHOSPHORUS
    ensures SENSOR_CATALOG[11] == CONDUCTIVITY && SENSOR_CATALOG[17] == RAIN
    ensures SENSOR_CATALOG[18] == SUN && SENSOR_CATALOG[19] == FLAME
    ensures SENSOR_CATALOG[20] == PERCENTAGE && SENSOR_CATALOG[21] == DISTANCE
    ensures SENSOR_CATALOG[22] == RUNTIME
  {
  }

  /** Only the rain, percent and runtime entries carry their icons. */
  lemma IconOwners(i: nat)
    requires i < |SENSOR_CATALOG|
    ensures SENSOR_CATALOG[i].meta.icon == CloudRain ==> i == 17
    ensures SENSOR_CATALOG[i].meta.icon == Percent ==> i == 20
    ensures SENSOR_CATALOG[i].meta.icon == AlarmClock ==> i == 22
  {
  }

  /** The fixed rules and the default never use those three icons. */
  lemma ExactIcons(nk: string)
    ensures ExactMeta(nk).Some? ==> ExactMeta(nk).value.icon in {Thermometer, Snowflake, FlaskConical, Leaf}
  {
  }

  /** As written, no normalized key is classified with the rain, percent or
      runtime icon. */
  lemma ClassifyAvoids(nk: string)
    ensures Classify(nk, KeywordIn).icon !in {CloudRain, Percent, AlarmClock}
  {
    var r := CatalogSearch(nk, SENSOR_CATALOG, 0, KeywordIn);
    if ExactMeta(nk).Some? {
      ExactIcons(nk);
    } else if r.Some? {
      var i := r.value;
      assert Classify(nk, KeywordIn) == SENSOR_CATALOG[i].meta;
      CatalogPositions();
      IconOwners(i);
      if i == 17 {
        RainShadowed(nk);
      } else if i == 20 {
        PercentShadowed(nk);
      } else if i == 22 {
        RuntimeShadowed(nk);
      }
    }
  }

  /** As written, no key is ever shown with the rain, percent or runtime
      icon. */
  lemma UnreachableEntries(key: string)
    ensures PickSensorMeta(key).icon != CloudRain
    ensures PickSensorMeta(key).icon != Percent
    ensures PickSensorMeta(key).icon != AlarmClock
  {
    ClassifyAvoids(NormalizeKey(key));
  }

  /** The intended keyword test: a keyword of one character names the whole
      key; a longer keyword may occur anywhere in it. */
  predicate KeywordFits(nk: string, kw: string) {
    var w := NormalizeKey(kw);
    if |w| == 1 then nk == w else Includes(nk, w)
  }

  /** `pickSensorMeta` with the intended keyword test. */
  function PickSensorMetaFixed(key: string): SensorMeta {
    Classify(NormalizeKey(key), KeywordFits)
  }

  /** A keyword with a character that the key cannot contain does not fit
      it. */
  lemma MissChar(nk: string, alphabet: string, kw: string, c: char)
    requires forall d :: d in nk ==> d in alphabet
    requires c in kw && IsKeyChar(LowerChar(c)) && LowerChar(c) !in alphabet
    ensures !KeywordFits(nk, kw)
  {
    NormalKeeps(kw, c);
    IncludesChars(nk, NormalizeKey(kw));
  }

  /** A keyword of one letter fits no key longer than one character. */
  lemma MissShort(nk: string, c: char)
    requires IsKeyChar(LowerChar(c)) && |nk| != 1
    ensures !KeywordFits(nk, [c])
  {
    NormalizePlain([c]);
  }

  /** A keyword that cannot fit a key of two or more characters drawn from
      `alphabet`: it is a single letter, or its character at `i` is a
      lower-case letter, a digit or `_` that the key lacks. */
  predicate RuledOut(kw: string, i: int, alphabet: string) {
    || (|kw| == 1 && ('A' <= kw[0] <= 'Z' || IsKeyChar(kw[0])))
    || (0 <= i < |kw| && IsKeyChar(kw[i]) && kw[i] !in alphabet)
  }

  /** Each keyword of `kws` is ruled out at the position `at` gives. */
  predicate Row(kws: seq<string>, at: seq<int>, alphabet: string) {
    |at| == |kws| && forall w :: 0 <= w < |kws| ==> RuledOut(kws[w], at[w], alphabet)
  }

  lemma RuledOutMisses(nk: string, alphabet: string, kw: string, i: int)
    requires forall d :: d in nk ==> d in alphabet
    requires |nk| > 1 && RuledOut(kw, i, alphabet)
    ensures !KeywordFits(nk, kw)
  {
    if 0 <= i < |kw| && IsKeyChar(kw[i]) && kw[i] !in alphabet {
      MissChar(nk, alphabet, kw, kw[i]);
    } else {
      assert kw == [kw[0]];
      MissShort(nk, kw[0]);
    }
  }

  /** An entry none of whose keywords passes `test` does not match. */
  lemma {:induction false} NoKeyword(nk: string, keywords: seq<string>, test: KeywordTest)
    requires forall w :: 0 <= w < |keywords| ==> !test(nk, keywords[w])
    ensures !AnyKeyword(nk, keywords, test)
  {
    if keywords != [] {
      assert forall w :: 0 <= w < |keywords[1..]| ==> keywords[1..][w] == keywords[w + 1];
      NoKeyword(nk, keywords[1..], test);
    }
  }

  /** Under the intended test, an entry whose every keyword is ruled out
      against `alphabet` (at the positions `at` gives) matches no key of two
      or more characters drawn from `alphabet`. */
  lemma EntryMisses(nk: string, alphabet: string, item: CatalogItem, at: seq<int>)
    requires forall d :: d in nk ==> d in alphabet
    requires |nk| > 1 && Row(item.keywords, at, alphabet)
    ensures !EntryMatches(nk, item, KeywordFits)
  {
    var keywords := item.keywords;
    forall w | 0 <= w < |keywords|
      ensures !KeywordFits(nk, keywords[w])
    {
      RuledOutMisses(nk, alphabet, keywords[w], at[w]);
    }
    NoKeyword(nk, keywords, KeywordFits);
  }

  /** For each keyword of the first seventeen entries, the position of a
      character outside "raincptu" (any position for a single letter). */
  const EARLY_WITNESSES: seq<seq<int>> := [
    [1, 1, 1, 1, 1, 0],
    [0, 0, 0, 1, 0],
    [2, 0, 1, 0, 0],
    [1, 3, 2, 0, 0, 0],
    [0, 1, 3, 3],
    [0, 0, 0, 1],
    [0, 0, 0, 0],
    [0],
    [0],
    [0],
    [3, 1, 1],
    [0, 1, 1, 1],
    [0, 0, 0, 0, 0, 0, 0],
    [0, 0, 0, 0, 0, 0],
    [1, 4, 0, 0],
    [0, 1, 0, 0],
    [1, 0, 0, 0, 0, 0, 1]
  ]

  /** The same for the rain, sun and flame entries against "pct". */
  const PCT_WITNESSES: seq<seq<int>> := [
    [0, 0],
    [0, 0, 0],
    [0, 0]
  ]

  /** The same for the entries from rain to distance against "up". */
  const UP_WITNESSES: seq<seq<int>> := [
    [0, 0],
    [0, 1, 1],
    [0, 0],
    [1, 1],
    [0, 0, 0, 0, 0]
  ]

  /* The rows of the tables, entry by entry. */

  lemma EarlyRow0()
    ensures Row(SENSOR_CATALOG[0].keywords, EARLY_WITNESSES[0], "raincptu")
  {
    TemperatureRow();
    assert SENSOR_CATALOG[0].keywords == ["temp", "temperature", "temperature_c", "t_c", "t_f", "heat"];
    assert EARLY_WITNESSES[0] == [1, 1, 1, 1, 1, 0];
  }

  lemma TemperatureRow()
    ensures Row(["temp", "temperature", "temperature_c", "t_c", "t_f", "heat"], [1, 1, 1, 1, 1, 0], "raincptu")
  {
  }

  lemma EarlyRow1()
    ensures Row(SENSOR_CATALOG[1].keywords, EARLY_WITNESSES[1], "raincptu")
  {
    HumidityRow();
    assert SENSOR_CATALOG[1].keywords == ["hum", "humidity", "humidity_rh", "rh", "humid"];
    assert EARLY_WITNESSES[1] == [0, 0, 0, 1, 0];
  }

  lemma HumidityRow()
    ensures Row(["hum", "humidity", "humidity_rh", "rh", "humid"], [0, 0, 0, 1, 0], "raincptu")
  {
  }

  lemma EarlyRow2()
    ensures Row(SENSOR_CATALOG[2].keywords, EARLY_WITNESSES[2], "raincptu")
  {
    PressureRow();
    assert SENSOR_CATALOG[2].keywords == ["pressure", "bar", "psi", "kpa", "hpa"];
    assert EARLY_WITNESSES[2] == [2, 0, 1, 0, 0];
  }

  lemma PressureRow()
    ensures Row(["pressure", "bar", "psi", "kpa", "hpa"], [2, 0, 1, 0, 0], "raincptu")
  {
  }

  lemma EarlyRow3()
    ensures Row(SENSOR_CATALOG[3].keywords, EARLY_WITNESSES[3], "raincptu")
  {
    GasRow();
    assert SENSOR_CATALOG[3].keywords == ["co2", "carbon", "ppm", "gas", "mq", "smoke"];
    assert EARLY_WITNESSES[3] == [1, 3, 2, 0, 0, 0];
  }

  lemma GasRow()
    ensures Row(["co2", "carbon", "ppm", "gas", "mq", "smoke"], [1, 3, 2, 0, 0, 0], "raincptu")
  {
  }

  lemma EarlyRow4()
    ensures Row(SENSOR_CATALOG[4].keywords, EARLY_WITNESSES[4], "raincptu")
  {
    AirQualityRow();
    assert SENSOR_CATALOG[4].keywords == ["voc", "aqi", "airquality", "air_quality"];
    assert EARLY_WITNESSES[4] == [0, 1, 3, 3];
  }

  lemma AirQualityRow()
    ensures Row(["voc", "aqi", "airquality", "air_quality"], [0, 1, 3, 3], "raincptu")
  {
  }

  lemma EarlyRow5()
    ensures Row(SENSOR_CATALOG[5].keywords, EARLY_WITNESSES[5], "raincptu")
  {
    LightRow();
    assert SENSOR_CATALOG[5].keywords == ["lux", "light", "ldr", "illum"];
    assert EARLY_WITNESSES[5] == [0, 0, 0, 1];
  }

  lemma LightRow()
    ensures Row(["lux", "light", "ldr", "illum"], [0, 0, 0, 1], "raincptu")
  {
  }

  lemma EarlyRow6()
    ensures Row(SENSOR_CATALOG[6].keywords, EARLY_WITNESSES[6], "raincptu")
  {
    SoilMoistureRow();
    assert SENSOR_CATALOG[6].keywords == ["soil", "moist", "moisture", "vwc"];
    assert EARLY_WITNESSES[6] == [0, 0, 0, 0];
  }

  lemma SoilMoistureRow()
    ensures Row(["soil", "moist", "moisture", "vwc"], [0, 0, 0, 0], "raincptu")
  {
  }

  lemma EarlyRow7()
    ensures Row(SENSOR_CATALOG[7].keywords, EARLY_WITNESSES[7], "raincptu")
  {
    NitrogenRow();
    assert SENSOR_CATALOG[7].keywords == ["N"];
    assert EARLY_WITNESSES[7] == [0];
  }

  lemma NitrogenRow()
    ensures Row(["N"], [0], "raincptu")
  {
  }

  lemma EarlyRow8()
    ensures Row(SENSOR_CATALOG[8].keywords, EARLY_WITNESSES[8], "raincptu")
  {
    PhosphorusRow();
    assert SENSOR_CATALOG[8].keywords == ["P"];
    assert EARLY_WITNESSES[8] == [0];
  }

  lemma PhosphorusRow()
    ensures Row(["P"], [0], "raincptu")
  {
  }

  lemma EarlyRow9()
    ensures Row(SENSOR_CATALOG[9].keywords, EARLY_WITNESSES[9], "raincptu")
  {
    PotassiumRow();
    assert SENSOR_CATALOG[9].keywords == ["K"];
    assert EARLY_WITNESSES[9] == [0];
  }

  lemma PotassiumRow()
    ensures Row(["K"], [0], "raincptu")
  {
  }

  lemma EarlyRow10()
    ensures Row(SENSOR_CATALOG[10].keywords, EARLY_WITNESSES[10], "raincptu")
  {
    AcidityRow();
    assert SENSOR_CATALOG[10].keywords == ["acidity", "alkaline", "Ph"];
    assert EARLY_WITNESSES[10] == [3, 1, 1];
  }

  lemma AcidityRow()
    ensures Row(["acidity", "alkaline", "Ph"], [3, 1, 1], "raincptu")
  {
  }

  lemma EarlyRow11()
    ensures Row(SENSOR_CATALOG[11].keywords, EARLY_WITNESSES[11], "raincptu")
  {
    ConductivityRow();
    assert SENSOR_CATALOG[11].keywords == ["ec", "tds", "conduct", "conductivity"];
    assert EARLY_WITNESSES[11] == [0, 1, 1, 1];
  }

  lemma ConductivityRow()
    ensures Row(["ec", "tds", "conduct", "conductivity"], [0, 1, 1, 1], "raincptu")
  {
  }

  lemma EarlyRow12()
    ensures Row(SENSOR_CATALOG[12].keywords, EARLY_WITNESSES[12], "raincptu")
  {
    WaterRow();
    assert SENSOR_CATALOG[12].keywords == ["level", "waterlevel", "water_level", "flow", "lpm", "ml", "litre"];
    assert EARLY_WITNESSES[12] == [0, 0, 0, 0, 0, 0, 0];
  }

  lemma WaterRow()
    ensures Row(["level", "waterlevel", "water_level", "flow", "lpm", "ml", "litre"], [0, 0, 0, 0, 0, 0, 0], "raincptu")
  {
  }

  lemma EarlyRow13()
    ensures Row(SENSOR_CATALOG[13].keywords, EARLY_WITNESSES[13], "raincptu")
  {
    VoltageRow();
    assert SENSOR_CATALOG[13].keywords == ["volt", "voltage", "vbat", "battery", "bat", "vb"];
    assert EARLY_WITNESSES[13] == [0, 0, 0, 0, 0, 0];
  }

  lemma VoltageRow()
    ensures Row(["volt", "voltage", "vbat", "battery", "bat", "vb"], [0, 0, 0, 0, 0, 0], "raincptu")
  {
  }

  lemma EarlyRow14()
    ensures Row(SENSOR_CATALOG[14].keywords, EARLY_WITNESSES[14], "raincptu")
  {
    CurrentRow();
    assert SENSOR_CATALOG[14].keywords == ["amp", "current", "ma", "a"];
    assert EARLY_WITNESSES[14] == [1, 4, 0, 0];
  }

  lemma CurrentRow()
    ensures Row(["amp", "current", "ma", "a"], [1, 4, 0, 0], "raincptu")
  {
  }

  lemma EarlyRow15()
    ensures Row(SENSOR_CATALOG[15].keywords, EARLY_WITNESSES[15], "raincptu")
  {
    PowerRow();
    assert SENSOR_CATALOG[15].keywords == ["watt", "power", "kw", "wh"];
    assert EARLY_WITNESSES[15] == [0, 1, 0, 0];
  }

  lemma PowerRow()
    ensures Row(["watt", "power", "kw", "wh"], [0, 1, 0, 0], "raincptu")
  {
  }

  lemma EarlyRow16()
    ensures Row(SENSOR_CATALOG[16].keywords, EARLY_WITNESSES[16], "raincptu")
  {
    SignalRow();
    assert SENSOR_CATALOG[16].keywords == ["rssi", "signal", "wifi", "ssid", "lte", "gsm", "Rssi"];
    assert EARLY_WITNESSES[16] == [1, 0, 0, 0, 0, 0, 1];
  }

  lemma SignalRow()
    ensures Row(["rssi", "signal", "wifi", "ssid", "lte", "gsm", "Rssi"], [1, 0, 0, 0, 0, 0, 1], "raincptu")
  {
  }

  lemma PctRow0()
    ensures Row(SENSOR_CATALOG[17].keywords, PCT_WITNESSES[0], "pct")
  {
    RainPctRow();
    assert SENSOR_CATALOG[17].keywords == ["rain", "rainfall"];
    assert PCT_WITNESSES[0] == [0, 0];
  }

  lemma RainPctRow()
    ensures Row(["rain", "rainfall"], [0, 0], "pct")
  {
  }

  lemma PctRow1()
    ensures Row(SENSOR_CATALOG[18].keywords, PCT_WITNESSES[1], "pct")
  {
    SunPctRow();
    assert SENSOR_CATALOG[18].keywords == ["sun", "uv", "uvi"];
    assert PCT_WITNESSES[1] == [0, 0, 0];
  }

  lemma SunPctRow()
    ensures Row(["sun", "uv", "uvi"], [0, 0, 0], "pct")
  {
  }

  lemma PctRow2()
    ensures Row(SENSOR_CATALOG[19].keywords, PCT_WITNESSES[2], "pct")
  {
    FlamePctRow();
    assert SENSOR_CATALOG[19].keywords == ["flame", "fire"];
    assert PCT_WITNESSES[2] == [0, 0];
  }

  lemma FlamePctRow()
    ensures Row(["flame", "fire"], [0, 0], "pct")
  {
  }

  lemma UpRow0()
    ensures Row(SENSOR_CATALOG[17].keywords, UP_WITNESSES[0], "up")
  {
    RainUpRow();
    assert SENSOR_CATALOG[17].keywords == ["rain", "rainfall"];
    assert UP_WITNESSES[0] == [0, 0];
  }

  lemma RainUpRow()
    ensures Row(["rain", "rainfall"], [0, 0], "up")
  {
  }

  lemma UpRow1()
    ensures Row(SENSOR_CATALOG[18].keywords, UP_WITNESSES[1], "up")
  {
    SunUpRow();
    assert SENSOR_CATALOG[18].keywords == ["sun", "uv", "uvi"];
    assert UP_WITNESSES[1] == [0, 1, 1];
  }

  lemma SunUpRow()
    ensures Row(["sun", "uv", "uvi"], [0, 1, 1], "up")
  {
  }

  lemma UpRow2()
    ensures Row(SENSOR_CATALOG[19].keywords, UP_WITNESSES[2], "up")
  {
    FlameUpRow();
    assert SENSOR_CATALOG[19].keywords == ["flame", "fire"];
    assert UP_WITNESSES[2] == [0, 0];
  }

  lemma FlameUpRow()
    ensures Row(["flame", "fire"], [0, 0], "up")
  {
  }

  lemma UpRow3()
    ensures Row(SENSOR_CATALOG[20].keywords, UP_WITNESSES[3], "up")
  {
    PercentUpRow();
    assert SENSOR_CATALOG[20].keywords == ["percent", "pct"];
    assert UP_WITNESSES[3] == [1, 1];
  }

  lemma PercentUpRow()
    ensures Row(["percent", "pct"], [1, 1], "up")
  {
  }

  lemma UpRow4()
    ensures Row(SENSOR_CATALOG[21].keywords, UP_WITNESSES[4], "up")
  {
    DistanceUpRow();
    assert SENSOR_CATALOG[21].keywords == ["distance", "cm", "mm", "meter", "m"];
    assert UP_WITNESSES[4] == [0, 0, 0, 0, 0];
  }

  lemma DistanceUpRow()
    ensures Row(["distance", "cm", "mm", "meter", "m"], [0, 0, 0, 0, 0], "up")
  {
  }

  lemma EarlyRow(j: nat)
    requires j < 17
    ensures Row(SENSOR_CATALOG[j].keywords, EARLY_WITNESSES[j], "raincptu")
  {
    if j == 0 {
      EarlyRow0();
    } else if j == 1 {
      EarlyRow1();
    } else if j == 2 {
      EarlyRow2();
    } else if j == 3 {
      EarlyRow3();
    } else if j == 4 {
      EarlyRow4();
    } else if j == 5 {
      EarlyRow5();
    } else if j == 6 {
      EarlyRow6();
    } else if j == 7 {
      EarlyRow7();
    } else if j == 8 {
      EarlyRow8();
    } else if j == 9 {
      EarlyRow9();
    } else if j == 10 {
      EarlyRow10();
    } else if j == 11 {
      EarlyRow11();
    } else if j == 12 {
      EarlyRow12();
    } else if j == 13 {
      EarlyRow13();
    } else if j == 14 {
      EarlyRow14();
    } else if j == 15 {
      EarlyRow15();
    } else {
      EarlyRow16();
    }
  }

  lemma PctRow(j: nat)
    requires 17 <= j < 20
    ensures Row(SENSOR_CATALOG[j].keywords, PCT_WITNESSES[j - 17], "pct")
  {
    if j == 17 {
      PctRow0();
    } else if j == 18 {
      PctRow1();
    } else {
      PctRow2();
    }
  }

  lemma UpRow(j: nat)
    requires 17 <= j < 22
    ensures Row(SENSOR_CATALOG[j].keywords, UP_WITNESSES[j - 17], "up")
  {
    if j == 17 {
      UpRow0();
    } else if j == 18 {
      UpRow1();
    } else if j == 19 {
      UpRow2();
    } else if j == 20 {
      UpRow3();
    } else {
      UpRow4();
    }
  }

  /** Under the intended test no entry before the rain entry matches a key
      of two or more characters spelled with the letters of "rain", "pct"
      and "up". */
  lemma {:induction false} EarlyEntriesMiss(nk: string, k: nat)
    requires forall d :: d in nk ==> d in "raincptu"
    requires |nk| > 1 && k <= 17
    ensures NoneMatches(nk, SENSOR_CATALOG, k, KeywordFits)
  {
    if k > 0 {
      EarlyEntriesMiss(nk, k - 1);
      EarlyRow(k - 1);
      EntryMisses(nk, "raincptu", SENSOR_CATALOG[k - 1], EARLY_WITNESSES[k - 1]);
      NoneMatchesStep(nk, SENSOR_CATALOG, k - 1, KeywordFits);
    }
  }

  /** Under the intended test a key of two or more characters spelled with
      "pct" matches no entry before the percent entry. */
  lemma {:induction false} PctEntriesMiss(nk: string, k: nat)
    requires forall d :: d in nk ==> d in "pct"
    requires |nk| > 1 && 17 <= k <= 20
    ensures NoneMatches(nk, SENSOR_CATALOG, k, KeywordFits)
  {
    if k == 17 {
      EarlyEntriesMiss(nk, 17);
    } else {
      PctEntriesMiss(nk, k - 1);
      PctRow(k - 1);
      EntryMisses(nk, "pct", SENSOR_CATALOG[k - 1], PCT_WITNESSES[k - 18]);
      NoneMatchesStep(nk, SENSOR_CATALOG, k - 1, KeywordFits);
    }
  }

  /** Under the intended test a key of two or more characters spelled with
      "up" matches no entry before the runtime entry. */
  lemma {:induction false} UpEntriesMiss(nk: string, k: nat)
    requires forall d :: d in nk ==> d in "up"
    requires |nk| > 1 && 17 <= k <= 22
    ensures NoneMatches(nk, SENSOR_CATALOG, k, KeywordFits)
  {
    if k == 17 {
      EarlyEntriesMiss(nk, 17);
    } else {
      UpEntriesMiss(nk, k - 1);
      UpRow(k - 1);
      EntryMisses(nk, "up", SENSOR_CATALOG[k - 1], UP_WITNESSES[k - 18]);
      NoneMatchesStep(nk, SENSOR_CATALOG, k - 1, KeywordFits);
    }
  }

  /** Under the intended test, an entry matches every key that contains one
      of its clean keywords of two or more characters. */
  lemma FitsPiece(nk: string, item: CatalogItem, w: nat)
    requires w < |item.keywords| && |item.keywords[w]| > 1
    requires forall ch :: ch in item.keywords[w] ==> IsKeyChar(ch)
    requires Includes(nk, item.keywords[w])
    ensures EntryMatches(nk, item, KeywordFits)
  {
    NormalizeClean(item.keywords[w]);
    AnyKeywordAt(nk, item.keywords, KeywordFits, w);
  }

  /** Entry `i` of the catalog is `item`, whose keyword `w` is the clean
      string `kw` of two or more characters. */
  predicate Piece(i: nat, item: CatalogItem, w: nat, kw: string) {
    && i < |SENSOR_CATALOG| && SENSOR_CATALOG[i] == item
    && w < |item.keywords| && item.keywords[w] == kw
    && |kw| > 1 && forall ch :: ch in kw ==> IsKeyChar(ch)
  }

  lemma RainPiece()
    ensures Piece(17, RAIN, 0, "rain")
  {
  }

  lemma PercentPiece()
    ensures Piece(20, PERCENTAGE, 1, "pct")
  {
  }

  lemma RuntimePiece()
    ensures Piece(22, RUNTIME, 8, "up")
  {
  }

  /** Under the intended test, when no fixed rule applies and no entry
      before entry `i` matches, a key containing a clean keyword of two or
      more characters of entry `i` is classified by that entry. */
  lemma FirstFit(nk: string, i: nat, item: CatalogItem, w: nat, kw: string)
    requires Piece(i, item, w, kw) && Includes(nk, kw)
    requires ExactMeta(nk).None? && NoneMatches(nk, SENSOR_CATALOG, i, KeywordFits)
    ensures Classify(nk, KeywordFits) == item.meta
  {
    FitsPiece(nk, item, w);
    ClassifyFound(nk, KeywordFits, i);
  }

  lemma LongNotExact(nk: string)
    requires |nk| > 1 && nk != "ph"
    ensures ExactMeta(nk).None?
  {
  }

  /** With the intended test, every normalized key that contains "rain"
      and uses no other letters is classified by the rain entry. */
  lemma FixedRainOn(nk: string)
    requires forall d :: d in nk ==> d in "rain"
    requires Includes(nk, "rain")
    ensures Classify(nk, KeywordFits) == RAIN.meta
  {
    var at := IncludesWhere(nk, "rain");
    EarlyEntriesMiss(nk, 17);
    assert nk[0] in nk;
    LongNotExact(nk);
    RainPiece();
    FirstFit(nk, 17, RAIN, 0, "rain");
  }

  /** The same for "pct" and the percent entry. */
  lemma FixedPercentOn(nk: string)
    requires forall d :: d in nk ==> d in "pct"
    requires Includes(nk, "pct")
    ensures Classify(nk, KeywordFits) == PERCENTAGE.meta
  {
    var at := IncludesWhere(nk, "pct");
    PctEntriesMiss(nk, 20);
    assert nk[1] in nk;
    LongNotExact(nk);
    PercentPiece();
    FirstFit(nk, 20, PERCENTAGE, 1, "pct");
  }

  /** The same for "up" and the runtime entry. */
  lemma FixedRuntimeOn(nk: string)
    requires forall d :: d in nk ==> d in "up"
    requires Includes(nk, "up")
    ensures Classify(nk, KeywordFits) == RUNTIME.meta
  {
    var at := IncludesWhere(nk, "up");
    UpEntriesMiss(nk, 22);
    assert nk[1] in nk;
    LongNotExact(nk);
    RuntimePiece();
    FirstFit(nk, 22, RUNTIME, 8, "up");
  }

  /** With the intended test, every key whose normal form contains "rain"
      and uses no other letters is shown with the rain entry. */
  lemma FixedReachesRain(key: string)
    requires forall d :: d in NormalizeKey(key) ==> d in "rain"
    requires Includes(NormalizeKey(key), "rain")
    ensures PickSensorMetaFixed(key) == RAIN.meta
    ensures PickSensorMetaFixed(key).icon == CloudRain
  {
    FixedRainOn(NormalizeKey(key));
  }

  /** With the intended test, every key whose normal form contains "pct"
      and uses no other letters is shown with the percent entry. */
  lemma FixedReachesPercent(key: string)
    requires forall d :: d in NormalizeKey(key) ==> d in "pct"
    requires Includes(NormalizeKey(key), "pct")
    ensures PickSensorMetaFixed(key) == PERCENTAGE.meta
    ensures PickSensorMetaFixed(key).icon == Percent
  {
    FixedPercentOn(NormalizeKey(key));
  }

  /** With the intended test, every key whose normal form contains "up"
      and uses no other letters is shown with the runtime entry. */
  lemma FixedReachesRuntime(key: string)
    requires forall d :: d in NormalizeKey(key) ==> d in "up"
    requires Includes(NormalizeKey(key), "up")
    ensures PickSensorMetaFixed(key) == RUNTIME.meta
    ensures PickSensorMetaFixed(key).icon == AlarmClock
  {
    FixedRuntimeOn(NormalizeKey(key));
  }
}
