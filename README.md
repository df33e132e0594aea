# Telemetry graph and sensor grid: a Dafny model

This project models the two pieces of an IoT admin dashboard that do real
work in memory.

- **The telemetry graph** (`src/components/TelemetryGraph.tsx`) takes a
  device's telemetry history and builds a multi-series chart from it:
  - it gives each record a time, read from `ts`, `timestamp`, `createdAt`
    or `updatedAt`, or else decoded from the first eight hex digits of the
    record's 24-character database id;
  - it keeps the records inside the selected time frame (1H … 7D, or All);
  - it sorts them oldest first;
  - it collects the numeric sensor keys in the order they are first seen;
  - it renames the keys through `SENSOR_KEY_MAP`;
  - it builds one chart point per record.

  The component also keeps two pieces of view state. One is the selected
  time frame. The other is the list of selected sensors: an empty list is
  filled with the first four sensors, and a sensor can be toggled in and out.
- **The sensor grid** (`src/components/SensorsGrid.tsx`) shows the latest
  record as cards:
  - it normalizes each key;
  - it classifies the key by exact rules for `t/h/ph/n/p/k`, then by the
    first `SENSOR_CATALOG` entry with a keyword contained in the key, then
    by a default;
  - it drops ignored keys and values that are not scalars;
  - it sorts the cards by normalized key;
  - it formats values, titleizes keys and picks colour classes for tones.

Module layout:

| module | file | what it holds |
|---|---|---|
| `Wrappers` | wrappers.dfy | `Option` |
| `Seqs` | seqs.dfy | `filter` and the insertion-ordered de-duplication of a `Set` |
| `LexOrder` | lex_order.dfy | lexicographic order on `seq<int>` |
| `StableSort` | stable_sort.dfy | `Array.prototype.sort` with a comparator, as a stable insertion sort |
| `JsValue` | js_value.dfy | JavaScript values, truthiness, records as ordered property lists |
| `Text` | text.dfy | `trim`, `\s`, ASCII case mapping, `includes`, decimal indices |
| `ObjectId` | object_id.dfy | `extractTimestampFromId` and its hex codec |
| `TelemetryTime` | telemetry_time.dfy | time frames, timestamp resolution, admission, sort time, labels |
| `TelemetrySeries` | telemetry_series.dfy | the `useMemo` pipeline: filter, sort, discovery, projection |
| `GraphView` | graph_view.dfy | the `GraphState` class: selected frame and selected sensors |
| `SensorKeys` | sensor_keys.dfy | `normalizeKey`, `titleizeKey` |
| `SensorCatalog` | sensor_catalog.dfy | `SENSOR_CATALOG`, `pickSensorMeta` |
| `SensorDisplay` | sensor_display.dfy | `IGNORE_KEYS`, `isScalar`, `formatValue`, `toneClasses`, the card entries |
| `CatalogShadowing` | catalog_shadowing.dfy | the catalog entries that can never be chosen, and the corrected rule |

### Modelling choices

- **Time.** Times are integer milliseconds.
  - The wall clock `now` is a parameter.
  - `new Date(value)` is a parameter `dateOf: Value -> Option<int>`, where `None` is an Invalid Date.
  - `toLocaleString` is a parameter `format: int -> string`.
- **Time frames.** A frame is `Hours(n)` or `All`. `All` stands for `hours: Infinity`.
- **Cutoff.** A cutoff outside the range of `Date` (±8.64·10^15 ms) is an Invalid Date, so it admits nothing.
- **Records.** A record is an ordered list of properties, in the order `Object.keys` returns them.
  - Assigning a new property appends it.
  - Assigning an existing one keeps its place.
- **Time resolution.** A record's time has three outcomes, `Missing | Invalid | At(ms)`.
  - The filter, the comparator and the labels each resolve the time in their own copy of the code.
  - Each copy is proved equal to the same resolution.
- **The sensor set.** The `Set` of sensor keys is an insertion-ordered sequence without repeats, which is what `Array.from(new Set)` returns.
- **Dictionary lookup.** `SENSOR_KEY_MAP[k] || k` is a lookup in a finite map.
- **`localeCompare`.** It is modelled as lexicographic order on normalized keys, by character rank: `_` < digits < letters, each in code order. A normalized key holds nothing but `[a-z0-9_]`, and that is the root collation order on those characters.
- **Sorting.** `Array.prototype.sort` is a stable insertion sort.
  - The comparator is modelled as "strictly ahead" (`before`).
  - When the comparator orders elements by a key, every stable sort gives the same result. The properties proved therefore hold for the engine's sort too.
- **`formatValue` on numbers.** `Math.round`, `toFixed(1)`, `toFixed(2)` and `String(number)` are functions carried in a `NumberText` value. Only the string post-processing is modelled.

### Where the code and its design description differ

The model follows the code in each of these cases.

- **Invalid dates.** A record whose time field is truthy but not a valid date is admitted under All (Invalid Date). The description says a record without a usable time is dropped from every frame.
- **Series order.** The discovered series come in first-seen order. The description promises no order.
- **Series exclusions.** Series discovery excludes only the graph's own 10 keys. The description says it also uses the grid's ignore set.
- **Toggling off and on.** A sensor toggled off and on again comes back at the end of the selection, not where it was (`GraphView.ToggleOffOn`).

## Model

| member | source | states |
|---|---|---|
| ObjectId.ExtractTimestampFromId | src/components/TelemetryGraph.tsx:98-108 | A time comes back exactly when the id has 24 characters. It is then a whole number of seconds in milliseconds, below 16^8 seconds. |
| ObjectId.ParseHex | src/components/TelemetryGraph.tsx:101 | `parseInt(s, 16)` on hex digits gives a value below 16^len. |
| ObjectId.ParseEncode | src/components/TelemetryGraph.tsx:101 | Reading back a number written as `width` hex digits gives the number. |
| ObjectId.EncodeParse | src/components/TelemetryGraph.tsx:101 | Writing out a parsed hex string gives the string back, lower-cased. |
| ObjectId.ExtractRoundTrip | src/components/TelemetryGraph.tsx:98-108 | Any s < 2^32, written as 8 hex digits and followed by any 16 characters, decodes to s·1000 ms. |
| ObjectId.ExtractInverse | src/components/TelemetryGraph.tsx:98-108 | The decoded time, written back as 8 hex digits, is the id's first eight characters, lower-cased. |
| ObjectId.ExtractPrefixOnly | src/components/TelemetryGraph.tsx:98-108 | Two 24-character ids whose first eight characters agree up to case carry the same time. |
| TelemetryTime.IdTime | src/components/TelemetryGraph.tsx:124-128 | Applies only when every time field is falsy, the one case in which the chain reads `_id`. An id time exists only when `_id` is a 24-character string, and it is in range. |
| TelemetryTime.FirstTruthy | src/components/TelemetryGraph.tsx:121 | There is a result exactly when one of the named fields is truthy. The result is truthy. |
| TelemetryTime.ChainIsPriority | src/components/TelemetryGraph.tsx:121 | The chain of `ts`, `timestamp`, `createdAt` and `updatedAt` joined by `or` is truthy exactly when one of the four fields is. It is then the first truthy one in that order. |
| TelemetryTime.Cutoff | src/components/TelemetryGraph.tsx:117-118 | A cutoff exists only for a finite frame and equals now − hours·3600000. It exists whenever that value is a valid date. |
| TelemetryTime.ResolveAgrees | src/components/TelemetryGraph.tsx:121-129 | The filter's and the labels' resolution yields a time exactly when the record's time is not missing. The date it yields is the resolved one. |
| TelemetryTime.AdmittedByStamp | src/components/TelemetryGraph.tsx:120-134 | A record without a time is never admitted. An invalid time is admitted only under All. A valid time is admitted under All, or when it is at or after the cutoff. |
| TelemetryTime.SortTimeByStamp | src/components/TelemetryGraph.tsx:137-146 | The comparator's time is the epoch for a record without a time, NaN (`None`) for an invalid one, and the resolved time otherwise. |
| TelemetryTime.LabelByStamp | src/components/TelemetryGraph.tsx:164-181 | The label is "Unknown" without a time, "Invalid Date" for an invalid one, and the formatted time otherwise. |
| TelemetryTime.IdOnlyAsLastResort | src/components/TelemetryGraph.tsx:121-129 | Two records that agree on the four time fields, one of them truthy, resolve to the same time whatever their ids. |
| TelemetryTime.AllAdmitsTimed | src/components/TelemetryGraph.tsx:131-133 | All admits exactly the records that have a time. A record without one is admitted by no frame. |
| TelemetryTime.FiniteFrameAdmits | src/components/TelemetryGraph.tsx:117-133 | A finite frame admits a record exactly when its time is valid and at least now − hours·3600000. |
| TelemetryTime.WiderAdmitsMore | src/components/TelemetryGraph.tsx:118-133 | A wider frame admits every record that a narrower one admits. |
| TelemetryTime.TimeFramesNested | src/components/TelemetryGraph.tsx:33-41 | Each later button of `TIME_FRAMES` is at least as wide as every earlier one. For any present-day `now`, the cutoffs are valid dates. |
| TelemetrySeries.WiderFrameKeepsMore | src/components/TelemetryGraph.tsx:120-134 | The narrower frame's records are among the wider frame's. Filtering the wider list by the narrower test gives exactly the narrower list, in the same order. |
| TelemetrySeries.FiniteFrameTimed | src/components/TelemetryGraph.tsx:120-146 | Under a finite frame every admitted record has a valid time, and that time is its sort time. |
| TelemetrySeries.NarrowerFrameKeepsOrder | src/components/TelemetryGraph.tsx:120-146 | For two finite frames, one at least as wide as the other and with a valid cutoff, the narrower frame's sorted records are the wider frame's sorted records with the records outside the narrower frame removed, in the same order. |
| StableSort.SortFilter | src/components/TelemetryGraph.tsx:137-146 | For a comparator that orders by a key, sorting the elements that pass a test gives the same sequence as sorting all of them and then dropping those that fail it. |
| TelemetrySeries.SortedRecordsSpec | src/components/TelemetryGraph.tsx:137-146 | The sorted list is a permutation of the filtered records. When every admitted record has a valid time, it is ascending by time, and records with equal times keep their input order. |
| TelemetrySeries.NumericKeysIff | src/components/TelemetryGraph.tsx:153-157 | A key is collected from a record exactly when the record holds it, it is not an excluded key, and its value is a number. |
| TelemetrySeries.CandidateKeysIff | src/components/TelemetryGraph.tsx:152-158 | A key is collected from the first n records exactly when one of them holds a number under it and it is not excluded. |
| TelemetrySeries.DiscoveredKeysSpec | src/components/TelemetryGraph.tsx:149-160 | The discovered keys have no repeats and none is excluded. Every key that holds a number in some admitted record is discovered. |
| TelemetrySeries.AddStep | src/components/TelemetryGraph.tsx:153-157 | One step of the inner `forEach` adds the key to the set exactly when it qualifies and is new. |
| TelemetrySeries.AddSensorKeys | src/components/TelemetryGraph.tsx:153-157 | The inner loop over one record's keys leaves the set holding the earlier keys followed by the record's new qualifying keys, without repeats. |
| TelemetrySeries.DiscoverSensors | src/components/TelemetryGraph.tsx:150-160 | The outer loop over the sorted records gives the discovered keys in first-seen order. |
| TelemetrySeries.DisplayNameSpec | src/components/TelemetryGraph.tsx:85-95 | A key in `SENSOR_KEY_MAP` shows as its mapped name; any other key shows as itself. Example: `t` gives "Temperature". |
| TelemetrySeries.DisplaySensors | src/components/TelemetryGraph.tsx:193 | `availableSensors` has one display name per discovered key, position by position. |
| TelemetrySeries.Put | src/components/TelemetryGraph.tsx:187 | Assigning a property sets that key and changes no other. A new key goes last; an existing key keeps its place. |
| TelemetrySeries.PointKeys | src/components/TelemetryGraph.tsx:183-188 | A chart point's keys have no repeats. They are "time" and the display names of the sensors. |
| TelemetrySeries.PointValue | src/components/TelemetryGraph.tsx:184-188 | Under a sensor's display name, a chart point holds the record's raw value for that sensor. This holds when no later sensor has the same display name (the last write wins). |
| TelemetrySeries.FillAfter | src/components/TelemetryGraph.tsx:184-188 | Sensors that do not write a key leave its value as it was. |
| TelemetrySeries.PointTime | src/components/TelemetryGraph.tsx:183 | "time" holds the label unless some display name is itself "time". |
| TelemetrySeries.BuildPoint | src/components/TelemetryGraph.tsx:183-189 | The loop that assigns into `dataPoint` builds the chart point the specification describes. |
| TelemetrySeries.BuildChart | src/components/TelemetryGraph.tsx:163-190 | There is one chart point per sorted record, in the same order, each labelled with its record's time. |
| TelemetrySeries.BuildSeries | src/components/TelemetryGraph.tsx:111-196 | Empty history gives an empty chart and no sensors. Otherwise the chart has one point per admitted record, in sorted order. `availableSensors` is the display names of the discovered keys, with the same length. |
| GraphView.GraphState.constructor | src/components/TelemetryGraph.tsx:80-82 | The state starts with the given time frame and no selected sensors. |
| GraphView.GraphState.SelectTimeFrame | src/components/TelemetryGraph.tsx:229-232 | A time-frame button sets the frame and leaves the selection alone. |
| GraphView.GraphState.ToggleSensor | src/components/TelemetryGraph.tsx:206-210 | The selection becomes the toggled list. The given sensor's membership flips; every other sensor's is kept. The frame is unchanged. |
| GraphView.GraphState.FillDefault | src/components/TelemetryGraph.tsx:199-203 | An empty selection with sensors available becomes the default selection. Otherwise nothing changes. |
| GraphView.ToggleFlips | src/components/TelemetryGraph.tsx:206-210 | Toggling flips the given sensor's membership and no other. |
| GraphView.ToggleKeepsOrder | src/components/TelemetryGraph.tsx:208 | Leaving out the toggled sensor, the selection is the same list before and after. |
| GraphView.ToggleShape | src/components/TelemetryGraph.tsx:208 | An absent sensor is appended last. Removing a present sensor shortens the list. |
| GraphView.ToggleTwice | src/components/TelemetryGraph.tsx:206-210 | Toggling an unselected sensor on and off again gives back the selection. |
| GraphView.ToggleOffOn | src/components/TelemetryGraph.tsx:206-210 | Toggling a selected sensor off and on again puts it back at the end of the list. |
| GraphView.ToggleDistinct | src/components/TelemetryGraph.tsx:206-210 | A selection without repeats stays without repeats. |
| GraphView.DefaultSelectionSpec | src/components/TelemetryGraph.tsx:201 | The default selection is the first min(4, n) available sensors. |
| SensorKeys.NormalizeKey | src/components/SensorsGrid.tsx:225-231 | A normalized key holds only `[a-z0-9_]` and is no longer than the key. |
| SensorKeys.NormalizeIdempotent | src/components/SensorsGrid.tsx:225-231 | Normalizing twice is normalizing once. The empty key normalizes to "". |
| SensorKeys.NormalizeClean | src/components/SensorsGrid.tsx:225-231 | A key already in `[a-z0-9_]` is its own normal form. |
| SensorKeys.NormalizePlain | src/components/SensorsGrid.tsx:225-231 | A key of ASCII letters, digits and `_` normalizes to its lower-case form. |
| SensorKeys.NormalKeeps | src/components/SensorsGrid.tsx:225-231 | Every character that lower-cases into `[a-z0-9_]` survives normalization, lower-cased. |
| SensorKeys.TitleizeKeySpec | src/components/SensorsGrid.tsx:233-237 | A key of only underscores and white space gives "-". Any other key gives its stretch from the first to the last non-blank character, with `_` as a space and the first character upper-cased. The result never contains `_`. |
| SensorCatalog.ExactMeta | src/components/SensorsGrid.tsx:243-260 | An exact rule applies exactly when the normalized key is one of `t`, `h`, `ph`, `n`, `p`, `k`. |
| SensorCatalog.CatalogSearch | src/components/SensorsGrid.tsx:263-267 | The search returns a catalog entry that matches, and no earlier entry matches. With no result, no entry matches. |
| SensorCatalog.SearchFinds | src/components/SensorsGrid.tsx:263-267 | The first matching entry is the one the search returns. |
| SensorCatalog.ClassifyFound | src/components/SensorsGrid.tsx:262-267 | With no exact rule, the first matching entry's meta is the result. |
| SensorCatalog.PickDependsOnNormalized | src/components/SensorsGrid.tsx:239-240 | The classification depends on the key only through its normal form. |
| SensorCatalog.ClassifyExact | src/components/SensorsGrid.tsx:242-260 | An exact rule wins over every catalog entry. |
| SensorCatalog.PickExact | src/components/SensorsGrid.tsx:243-260 | Keys normalizing to `t/h/ph/n/p/k` get their fixed meta. Example: `p` gives Leaf, "ppm", "phosphorus". |
| SensorCatalog.FirstMatchWins | src/components/SensorsGrid.tsx:262-267 | With no exact rule, the first catalog entry in declared order with a contained keyword decides the meta. |
| SensorCatalog.NoMatchDefault | src/components/SensorsGrid.tsx:269 | When no entry matches, the result is the default: unit "" and tone "neutral". |
| SensorCatalog.TempIsHot | src/components/SensorsGrid.tsx:53-60 | Any key whose normal form contains "temp" is a temperature: Thermometer, "°C", "hot". |
| SensorDisplay.ScalarIffNotComposite | src/components/SensorsGrid.tsx:272-274 | A value is a scalar exactly when it is neither an array nor an object. |
| SensorDisplay.FormatValueNonNumbers | src/components/SensorsGrid.tsx:276-286 | null and undefined give "-". Booleans give "TRUE" or "FALSE". Other non-numbers give their string form, and a string gives itself. |
| SensorDisplay.DropTrailingZero | src/components/SensorsGrid.tsx:283 | `.replace(/0$/, "")` removes one final "0" or leaves the text as it is. |
| SensorDisplay.DropPointZero | src/components/SensorsGrid.tsx:282-283 | `.replace(/\.0$/, "")` removes a final ".0" or leaves the text as it is. |
| SensorDisplay.TrimFixed2 | src/components/SensorsGrid.tsx:283 | For a `toFixed(2)` text, "x.00" becomes "x", "x.d0" becomes "x.d", and other texts are kept. No fraction ends in "0". |
| SensorDisplay.TrimFixed1 | src/components/SensorsGrid.tsx:282 | For a `toFixed(1)` text, "x.0" becomes "x" and other texts are kept. No fraction ends in "0". |
| SensorDisplay.FormatNumberTrimmed | src/components/SensorsGrid.tsx:279-284 | Below 1000 in absolute value, a formatted number never ends its fraction in "0". |
| SensorDisplay.TonePalette | src/components/SensorsGrid.tsx:288-319 | A tone is drawn grey exactly when the switch does not name it. |
| SensorDisplay.ToneClassesByPalette | src/components/SensorsGrid.tsx:288-319 | The switch gives every tone its colour family's classes. |
| SensorDisplay.PaletteClassesDistinct | src/components/SensorsGrid.tsx:290-317 | No two colour families share their class strings. |
| SensorDisplay.ToneClassesAlike | src/components/SensorsGrid.tsx:288-319 | Two tones get the same classes exactly when they belong to the same family. |
| SensorDisplay.NutrientAliases | src/components/SensorsGrid.tsx:306-314 | "n", "p" and "k" get the classes of "nitrogen", "phosphorus" and "potassium". |
| SensorDisplay.UnknownToneIsNeutral | src/components/SensorsGrid.tsx:315-317 | Any tone the switch does not name gets the classes of "neutral". |
| SensorDisplay.CatalogTones | src/components/SensorsGrid.tsx:53-221 | Every catalog entry's tone is one of the tones the classifier hands out. |
| SensorDisplay.ClassifierTones | src/components/SensorsGrid.tsx:239-270 | Every key is classified with one of those tones. |
| SensorDisplay.ClassifierTonesNamed | src/components/SensorsGrid.tsx:288-319 | Every tone the classifier hands out, other than "neutral", is named by the switch. |
| SensorDisplay.ArrayEntries | src/components/SensorsGrid.tsx:330 | `Object.entries` of an array pairs each decimal index with its item. |
| SensorDisplay.RankOrder | src/components/SensorsGrid.tsx:334 | On key characters, the rank orders `_` before digits before letters, each in code order. Equal ranks mean equal characters. |
| SensorDisplay.RanksInjective | src/components/SensorsGrid.tsx:334 | Two normalized keys with the same sort key are the same key. |
| SensorDisplay.SensorEntriesSpec | src/components/SensorsGrid.tsx:324-335 | The cards are a permutation of the filtered entries. An entry is shown exactly when it is in the record, its key is not ignored raw or normalized, and its value is a scalar. The cards are ordered by normalized key, and cards with equal normalized keys keep their record order. A value that is not an object gives no cards. |
| SensorDisplay.SensorEntriesOrdered | src/components/SensorsGrid.tsx:334 | A later card never has a smaller normalized key than an earlier one. Equal sort keys mean equal normalized keys. |
| CatalogShadowing.RainShadowed | src/components/SensorsGrid.tsx:104-109 | Whatever key the rain entry matches, the earlier nitrogen entry (`N`) matches too. |
| CatalogShadowing.PercentShadowed | src/components/SensorsGrid.tsx:111-116 | Whatever key the percent entry matches, the earlier phosphorus entry (`P`) matches too. |
| CatalogShadowing.RuntimeShadowed | src/components/SensorsGrid.tsx:207-213 | Whatever key the runtime entry matches, an earlier entry matches too: nitrogen, phosphorus, conductivity (`ec`) or distance (`m`). |
| CatalogShadowing.ClassifyAvoids | src/components/SensorsGrid.tsx:239-270 | As written, no normalized key is classified with the rain, percent or runtime icon. |
| CatalogShadowing.UnreachableEntries | src/components/SensorsGrid.tsx:173-213 | As written, `pickSensorMeta` never returns the CloudRain, Percent or AlarmClock entry. |
| CatalogShadowing.FixedReachesRain | src/components/SensorsGrid.tsx:173-179 | Under the corrected keyword test, a key made of the letters of "rain" that contains "rain" is classified as rain. |
| CatalogShadowing.FixedReachesPercent | src/components/SensorsGrid.tsx:193-199 | Under the corrected test, a key made of the letters of "pct" that contains "pct" is classified as percent. |
| CatalogShadowing.FixedReachesRuntime | src/components/SensorsGrid.tsx:207-213 | Under the corrected test, a key made of the letters of "up" that contains "up" is classified as runtime. |

## Left out

- I/O and rendering are not modelled: recharts, the icons as components, the colour palette of the lines, the tooltip, the fullscreen flag and the Brush threshold.
- The wall clock, `new Date(string)` parsing and `toLocaleString` are parameters (`now`, `dateOf`, `format`). Their own behaviour is not modelled.
- ISO conversion of an id time is taken as exact: `new Date(d.toISOString())` gives back `d`.
- Fractional hours in a frame are not modelled; every frame the component offers is a whole number of hours.
- `localeCompare` is approximated by the rank order above. Other locales, and characters outside `[a-z0-9_]`, are not modelled; a normalized key never holds such characters.
- Case mapping covers ASCII only. Non-ASCII letters that `toLowerCase` maps into `[a-z]` are not modelled, such as the Kelvin sign.
- Property order is taken as insertion order. JavaScript puts integer-like keys first in `Object.keys` and `Object.entries`, and that reordering is not modelled.
- Keys inherited from `Object.prototype` (such as `constructor`) are not modelled as present in `SENSOR_KEY_MAP`.
- ObjectId.ExtractTimestampFromId: requires the first eight characters of a 24-character id to be hex digits, and reads them as a base-16 number. `parseInt` is more lenient than that: it skips leading white space, accepts a sign and a `0x` prefix, and stops at the first character that is not a hex digit, so ids such as `12zzzzzz…` or `-0000001…` still give a date. Those partial readings are not modelled. Nor is the case where the first significant character is not a hex digit: `parseInt` then gives NaN, and `toISOString` at src/components/TelemetryGraph.tsx:127 throws a RangeError.
- ObjectId.ExtractTimestampFromId: `id.length === 24` counts UTF-16 code units, while the model's `|id|` counts characters. An id holding characters outside the Basic Multilingual Plane therefore has a different length in the model.
- TelemetryTime.StampOf: the record type `TelemetryRecord` carries the same hex requirement for the `_id` of a record whose time fields are all falsy, when that `_id` is a 24-character string. An `_id` behind a truthy time field is never read and is unrestricted.
- TelemetrySeries.SortedRecordsSpec: states order and stability only when every admitted record has a valid time. Under All, an Invalid Date makes the comparator return NaN, and the engine's order is then unspecified. Being a permutation is proved in every case.
- TelemetrySeries.PointValue: states the value only for a sensor that no later sensor shadows with the same display name. `TelemetrySeries.FillAfter` states the general case.
- SensorDisplay.FormatNumberTrimmed: assumes that the `toFixed` texts have their specified shape. `Math.abs`, `Math.round`, `toFixed` and `String(number)` on floating-point numbers are not modelled.
- The component's "no data" markup for empty entries and empty history is not modelled beyond the empty results themselves.

## Findings

| source | as written | input that shows it | evidently intended | confidence | as-written member | corrected member |
|---|---|---|---|---|---|---|
| src/components/SensorsGrid.tsx:104-213 | The one-letter catalog keywords `N`, `P`, `K`, `a` and `m` are tested with `includes` like the others. They match every key that merely contains the letter. Every keyword of the rain, percent and runtime entries contains `n`, `p`, `m` or `ec`, each claimed by an earlier entry. | `rainfall` normalizes to "rainfall", which contains "n", so it is shown as soil nitrogen (Leaf, "ppm"). `pct` is shown as phosphorus; `uptime` is shown as phosphorus. | A one-letter keyword names the whole key, as the exact rules for `n`, `p` and `k` do. Longer keywords are matched as pieces of the key. Under the corrected test, the model shows that the rain, percent and runtime entries are reached by every key spelled only with the letters of "rain", "pct" or "up" respectively that contains that word. Longer keys such as `rainfall` and `uptime` are not covered by those lemmas. | not executed | CatalogShadowing.UnreachableEntries | CatalogShadowing.PickSensorMetaFixed, CatalogShadowing.FixedReachesRain, CatalogShadowing.FixedReachesPercent, CatalogShadowing.FixedReachesRuntime |
