/** The chart series the telemetry graph computes from a device's history
    (the `useMemo` of src/components/TelemetryGraph.tsx): the records inside
    the time frame, sorted oldest first; the numeric fields they carry; and
    one chart point per record, keyed by display names. */
module TelemetrySeries {
  import opened Wrappers
  import opened Seqs
  import opened JsValue
  import LexOrder
  import opened StableSort
  import opened TelemetryTime

  /** The `history.filter` callback. */
  function AdmitTest(frame: Frame, now: int, dateOf: Value -> Option<int>): TelemetryRecord -> bool {
    (r: TelemetryRecord) => Admitted(r, frame, now, dateOf)
  }

  /** `filtered`: the admitted records, in their order in the history. */
  function Filtered(history: seq<TelemetryRecord>, frame: Frame, now: int, dateOf: Value -> Option<int>): seq<TelemetryRecord> {
    Filter(history, AdmitTest(frame, now, dateOf))
  }

  /** The sort comparator: `a` goes ahead of `b` when the difference of their
      sort times is negative; a NaN difference counts as zero. */
  function Before(dateOf: Value -> Option<int>): (TelemetryRecord, TelemetryRecord) -> bool {
    (a: TelemetryRecord, b: TelemetryRecord) => SortTime(a, dateOf).Some? && SortTime(b, dateOf).Some? && SortTime(a, dateOf).value < SortTime(b, dateOf).value
  }

  /** The sort time as a key of the lexicographic order. */
  function TimeKey(dateOf: Value -> Option<int>): TelemetryRecord -> seq<int> {
    (r: TelemetryRecord) => if SortTime(r, dateOf).Some? then [SortTime(r, dateOf).value] else []
  }

  /** `sorted`: the admitted records, oldest first. */
  function SortedRecords(history: seq<TelemetryRecord>, frame: Frame, now: int, dateOf: Value -> Option<int>): seq<TelemetryRecord> {
    Sort(Filtered(history, frame, now, dateOf), Before(dateOf))
  }

  /** A wider frame keeps every record a narrower one keeps, and the narrower
      frame's records are what filtering the wider frame's records again
      leaves, in the same order. */
  lemma WiderFrameKeepsMore(history: seq<TelemetryRecord>, wide: Frame, narrow: Frame, now: int, dateOf: Value -> Option<int>)
    requires Wider(wide, narrow)
    requires wide.Hours? ==> Cutoff(wide, now).Some?
    ensures forall r :: r in Filtered(history, narrow, now, dateOf) ==> r in Filtered(history, wide, now, dateOf)
    ensures Filter(Filtered(history, wide, now, dateOf), AdmitTest(narrow, now, dateOf)) == Filtered(history, narrow, now, dateOf)
  {
    forall r: TelemetryRecord
      ensures AdmitTest(narrow, now, dateOf)(r) ==> AdmitTest(wide, now, dateOf)(r)
    {
      WiderAdmitsMore(r, wide, narrow, now, dateOf);
    }
    FilterNarrower(history, AdmitTest(wide, now, dateOf), AdmitTest(narrow, now, dateOf));
  }

  /** Under a finite frame every admitted record has a valid time, and that
      time is the one the comparator sorts it by. */
  lemma FiniteFrameTimed(history: seq<TelemetryRecord>, hours: nat, now: int, dateOf: Value -> Option<int>)
    ensures forall r :: r in Filtered(history, Hours(hours), now, dateOf) ==>
      StampOf(r, dateOf).At? && SortTime(r, dateOf) == Some(StampOf(r, dateOf).ms)
  {
    forall r | r in Filtered(history, Hours(hours), now, dateOf)
      ensures StampOf(r, dateOf).At? && SortTime(r, dateOf) == Some(StampOf(r, dateOf).ms)
    {
      AdmittedByStamp(r, Hours(hours), now, dateOf);
      SortTimeByStamp(r, dateOf);
    }
  }

  lemma LessSingletons(x: int, y: int)
    ensures LexOrder.Less([x], [y]) <==> x < y
  {
    assert [x][1..] == [] && [y][1..] == [];
  }

  /** The comparator orders records that all have a valid sort time by that
      time. */
  lemma BeforeKeyed(s: seq<TelemetryRecord>, dateOf: Value -> Option<int>)
    requires forall r :: r in s ==> SortTime(r, dateOf).Some?
    ensures Keyed(Before(dateOf), TimeKey(dateOf), s)
  {
    forall a, b | a in s && b in s
      ensures Before(dateOf)(a, b) == LexOrder.Less(TimeKey(dateOf)(a), TimeKey(dateOf)(b))
    {
      LessSingletons(SortTime(a, dateOf).value, SortTime(b, dateOf).value);
    }
  }

  /** `sorted` holds the admitted records, each as often as `filtered` does.
      When each of them has a valid time (always so under a finite frame) it
      is ordered oldest first, and records with the same time keep their order
      in the history. */
  lemma SortedRecordsSpec(history: seq<TelemetryRecord>, frame: Frame, now: int, dateOf: Value -> Option<int>)
    ensures multiset(SortedRecords(history, frame, now, dateOf)) == multiset(Filtered(history, frame, now, dateOf))
    ensures (forall r :: r in Filtered(history, frame, now, dateOf) ==> SortTime(r, dateOf).Some?) ==>
      var sorted := SortedRecords(history, frame, now, dateOf);
      && (forall r :: r in sorted ==> SortTime(r, dateOf).Some?)
      && (forall i, j :: 0 <= i < j < |sorted| ==> SortTime(sorted[i], dateOf).value <= SortTime(sorted[j], dateOf).value)
      && (forall ms: int :: WithKey(sorted, [ms], TimeKey(dateOf)) == WithKey(Filtered(history, frame, now, dateOf), [ms], TimeKey(dateOf)))
  {
    var filtered := Filtered(history, frame, now, dateOf);
    var sorted := SortedRecords(history, frame, now, dateOf);
    if forall r :: r in filtered ==> SortTime(r, dateOf).Some? {
      BeforeKeyed(filtered, dateOf);
      SortSorted(filtered, Before(dateOf), TimeKey(dateOf));
      SortMembers(filtered, Before(dateOf));
      forall i, j | 0 <= i < j < |sorted|
        ensures SortTime(sorted[i], dateOf).value <= SortTime(sorted[j], dateOf).value
      {
        assert sorted[i] in sorted && sorted[j] in sorted;
        LessSingletons(SortTime(sorted[j], dateOf).value, SortTime(sorted[i], dateOf).value);
      }
      forall ms: int
        ensures WithKey(sorted, [ms], TimeKey(dateOf)) == WithKey(filtered, [ms], TimeKey(dateOf))
      {
        SortStable(filtered, Before(dateOf), TimeKey(dateOf), [ms]);
      }
    }
  }

  /** Narrowing a finite frame only drops points from the chart: the
      narrower frame's sorted records are the wider frame's sorted records
      with those outside the narrower frame removed, in the same order. */
  lemma NarrowerFrameKeepsOrder(history: seq<TelemetryRecord>, wide: Frame, narrow: Frame, now: int, dateOf: Value -> Option<int>)
    requires Wider(wide, narrow)
    requires wide.Hours? && Cutoff(wide, now).Some?
    ensures SortedRecords(history, narrow, now, dateOf) ==
      Filter(SortedRecords(history, wide, now, dateOf), AdmitTest(narrow, now, dateOf))
  {
    var filtered := Filtered(history, wide, now, dateOf);
    FiniteFrameTimed(history, wide.hours, now, dateOf);
    BeforeKeyed(filtered, dateOf);
    SortFilter(filtered, AdmitTest(narrow, now, dateOf), Before(dateOf), TimeKey(dateOf));
    WiderFrameKeepsMore(history, wide, narrow, now, dateOf);
  }

  /** The metadata fields that are never offered as sensors. */
  const EXCLUDE_KEYS: set<string> := {"_id", "updatedAt", "createdAt", "ts", "timestamp", "__v", "deviceId", "id", "up", "fw"}

  /** A field of `point` that the graph plots: not metadata, and a number. */
  predicate IsSensorField(point: Record, key: string) {
    key !in EXCLUDE_KEYS && IsNumber(Get(point, key))
  }

  /** The sensor fields among the first `n` entries of `point`, in key
      order. */
  function NumericKeys(point: Record, n: nat): seq<string>
    requires n <= |point|
  {
    if n == 0 then []
    else NumericKeys(point, n - 1) + (if IsSensorField(point, point[n - 1].key) then [point[n - 1].key] else [])
  }

  /** Every key `sensorKeys.add` receives from the first `n` records, in
      order. */
  function CandidateKeys(points: seq<Record>, n: nat): seq<string>
    requires n <= |points|
  {
    if n == 0 then []
    else CandidateKeys(points, n - 1) + NumericKeys(points[n - 1], |points[n - 1]|)
  }

  /** `Array.from(sensorKeys)`: the candidates in order of first addition. */
  function DiscoveredKeys(points: seq<Record>): seq<string> {
    Dedup(CandidateKeys(points, |points|))
  }

  lemma {:induction false} NumericKeysIff(point: Record, n: nat, k: string)
    requires n <= |point|
    ensures k in NumericKeys(point, n) <==> (exists i :: 0 <= i < n && point[i].key == k) && IsSensorField(point, k)
  {
    if n > 0 {
      NumericKeysIff(point, n - 1, k);
    }
  }

  lemma KeysHas(p: Record, k: string)
    ensures k in Keys(p) <==> exists i :: 0 <= i < |p| && p[i].key == k
  {
    if k in Keys(p) {
      var i :| 0 <= i < |Keys(p)| && Keys(p)[i] == k;
      assert p[i].key == k;
    }
    if exists i :: 0 <= i < |p| && p[i].key == k {
      var i :| 0 <= i < |p| && p[i].key == k;
      assert Keys(p)[i] == k;
    }
  }

  /** `p` holds a sensor field named `k`. */
  predicate HasSensor(p: Record, k: string) {
    k in Keys(p) && IsSensorField(p, k)
  }

  lemma {:induction false} CandidateKeysIff(points: seq<Record>, n: nat, k: string)
    requires n <= |points|
    ensures k in CandidateKeys(points, n) <==> exists i :: 0 <= i < n && HasSensor(points[i], k)
  {
    if n > 0 {
      CandidateKeysIff(points, n - 1, k);
      CandidateStep(points, n, k);
      if HasSensor(points[n - 1], k) {
        assert 0 <= n - 1 < n && HasSensor(points[n - 1], k);
      }
    }
  }

  /** The `n`-th record adds `k` exactly when it holds a sensor field `k`. */
  lemma CandidateStep(points: seq<Record>, n: nat, k: string)
    requires 0 < n <= |points|
    ensures k in CandidateKeys(points, n) <==> k in CandidateKeys(points, n - 1) || HasSensor(points[n - 1], k)
  {
    var last := points[n - 1];
    NumericKeysIff(last, |last|, k);
    KeysHas(last, k);
    assert CandidateKeys(points, n) == CandidateKeys(points, n - 1) + NumericKeys(last, |last|);
  }

  /** The discovered keys are distinct; a key is discovered exactly when it
      is not metadata and some admitted record holds a number under it. */
  lemma DiscoveredKeysSpec(points: seq<Record>)
    ensures Distinct(DiscoveredKeys(points))
    ensures forall k :: k in DiscoveredKeys(points) <==>
      k !in EXCLUDE_KEYS && exists p :: p in points && k in Keys(p) && IsNumber(Get(p, k))
  {
    forall k
      ensures k in DiscoveredKeys(points) <==>
        k !in EXCLUDE_KEYS && exists p :: p in points && k in Keys(p) && IsNumber(Get(p, k))
    {
      CandidateKeysIff(points, |points|, k);
      if exists p :: p in points && k in Keys(p) && IsNumber(Get(p, k)) {
        var p :| p in points && k in Keys(p) && IsNumber(Get(p, k));
        var i :| 0 <= i < |points| && points[i] == p;
        if k !in EXCLUDE_KEYS {
          assert HasSensor(points[i], k);
        }
      }
    }
  }

  /** One step of the inner loop: adding the `j`-th key of `point` when it
      is a sensor field extends the set read back so far by that key. */
  lemma AddStep(seen: seq<string>, point: Record, j: nat, sensors: seq<string>)
    requires j < |point| && sensors == Dedup(seen + NumericKeys(point, j))
    ensures Dedup(seen + NumericKeys(point, j + 1)) ==
      if IsSensorField(point, point[j].key) && point[j].key !in sensors then sensors + [point[j].key] else sensors
  {
    var key := point[j].key;
    assert seen + NumericKeys(point, j + 1) ==
      (seen + NumericKeys(point, j)) + (if IsSensorField(point, key) then [key] else []);
    if IsSensorField(point, key) {
      DedupSnoc(seen + NumericKeys(point, j), key);
    } else {
      assert seen + NumericKeys(point, j + 1) == seen + NumericKeys(point, j);
    }
  }

  /** The inner `forEach`: every sensor field of `point` is added to the
      set, in key order. */
  method AddSensorKeys(point: Record, sensors: seq<string>, ghost seen: seq<string>) returns (added: seq<string>)
    requires sensors == Dedup(seen)
    ensures added == Dedup(seen + NumericKeys(point, |point|))
  {
    var keys := Keys(point);
    added := sensors;
    assert seen + [] == seen;
    for j := 0 to |keys|
      invariant added == Dedup(seen + NumericKeys(point, j))
    {
      var key := keys[j];
      AddStep(seen, point, j, added);
      if IsSensorField(point, key) && key !in added {
        added := added + [key];
      }
    }
  }

  /** The outer `forEach` over the sorted records. */
  method DiscoverSensors(sorted: seq<TelemetryRecord>) returns (sensors: seq<string>)
    ensures sensors == DiscoveredKeys(sorted)
  {
    sensors := [];
    for i := 0 to |sorted|
      invariant sensors == Dedup(CandidateKeys(sorted, i))
    {
      sensors := AddSensorKeys(sorted[i], sensors, CandidateKeys(sorted, i));
    }
  }

  /** `SENSOR_KEY_MAP`: readable names for the abbreviated keys. */
  const SENSOR_KEY_MAP: map<string, string> := map[
    "t" := "Temperature",
    "h" := "Humidity",
    "n" := "Nitrogen (N)",
    "p" := "Phosphorus (P)",
    "k" := "Potassium (K)",
    "ph" := "pH",
    "ec" := "EC",
    "vb" := "Battery Voltage",
    "rssi" := "Signal Strength"
  ]

  /** `SENSOR_KEY_MAP[sensor] || sensor`; no mapped name is empty, so the
      mapped name wins whenever there is one. */
  function DisplayName(sensor: string): string {
    if sensor in SENSOR_KEY_MAP && SENSOR_KEY_MAP[sensor] != "" then SENSOR_KEY_MAP[sensor] else sensor
  }

  /** A key outside the map is shown as itself, a mapped key by its readable
      name; so display names can repeat, as for `t` and `Temperature`. */
  lemma DisplayNameSpec(sensor: string)
    ensures sensor !in SENSOR_KEY_MAP ==> DisplayName(sensor) == sensor
    ensures sensor in SENSOR_KEY_MAP ==> DisplayName(sensor) == SENSOR_KEY_MAP[sensor]
    ensures DisplayName("t") == DisplayName("Temperature") == "Temperature"
  {
  }

  /** `sensors.map(name)`. */
  function Renamed(sensors: seq<string>, name: string -> string): (names: seq<string>)
    ensures |names| == |sensors|
    ensures forall i :: 0 <= i < |sensors| ==> names[i] == name(sensors[i])
  {
    if sensors == [] then []
    else Renamed(sensors[..|sensors| - 1], name) + [name(sensors[|sensors| - 1])]
  }

  /** `sensors.map(key => SENSOR_KEY_MAP[key] || key)`. */
  function DisplaySensors(sensors: seq<string>): (names: seq<string>)
    ensures |names| == |sensors|
    ensures forall i :: 0 <= i < |sensors| ==> names[i] == DisplayName(sensors[i])
  {
    Renamed(sensors, DisplayName)
  }

  /** `obj[key] = v`: an existing key keeps its place and takes the new
      value; a new key is added last. */
  function Put(obj: Record, key: string, v: Value): (r: Record)
    ensures Get(r, key) == v
    ensures forall k :: k != key ==> Get(r, k) == Get(obj, k)
    ensures Keys(r) == if key in Keys(obj) then Keys(obj) else Keys(obj) + [key]
  {
    if obj == [] then [Entry(key, v)]
    else if obj[0].key == key then [Entry(key, v)] + obj[1..]
    else
      var rest := Put(obj[1..], key, v);
      assert Keys([obj[0]] + rest) == [obj[0].key] + Keys(rest);
      assert Keys(obj) == [obj[0].key] + Keys(obj[1..]);
      assert Keys([Entry(key, v)] + obj[1..]) == [key] + Keys(obj[1..]);
      [obj[0]] + rest
  }

  /** `{ time }` followed, sensor by sensor, by `dataPoint[name(sensor)] =
      point[sensor]`. */
  function FillPointAs(point: Record, sensors: seq<string>, name: string -> string, time: string): Record {
    if sensors == [] then [Entry("time", Str(time))]
    else
      var last := sensors[|sensors| - 1];
      Put(FillPointAs(point, sensors[..|sensors| - 1], name, time), name(last), Get(point, last))
  }

  /** The chart point for `point`, each sensor stored under its display name. */
  function FillPoint(point: Record, sensors: seq<string>, time: string): Record {
    FillPointAs(point, sensors, DisplayName, time)
  }

  lemma {:induction false} FillKeys(point: Record, sensors: seq<string>, name: string -> string, time: string)
    ensures Distinct(Keys(FillPointAs(point, sensors, name, time)))
    ensures forall k :: k in Keys(FillPointAs(point, sensors, name, time)) <==> k == "time" || k in Renamed(sensors, name)
  {
    if sensors != [] {
      var init, last := sensors[..|sensors| - 1], sensors[|sensors| - 1];
      var prev := FillPointAs(point, init, name, time);
      FillKeys(point, init, name, time);
      assert Renamed(sensors, name) == Renamed(init, name) + [name(last)];
      assert FillPointAs(point, sensors, name, time) == Put(prev, name(last), Get(point, last));
      DistinctSnoc(Keys(prev), name(last));
    }
  }

  lemma DistinctSnoc(s: seq<string>, x: string)
    requires Distinct(s)
    ensures Distinct(if x in s then s else s + [x])
  {
  }

  lemma FillValue(point: Record, sensors: seq<string>, name: string -> string, time: string, j: nat)
    requires j < |sensors|
    requires forall l :: j < l < |sensors| ==> name(sensors[l]) != name(sensors[j])
    ensures Get(FillPointAs(point, sensors, name, time), name(sensors[j])) == Get(point, sensors[j])
  {
    var upto := sensors[..j + 1];
    assert upto[..j] == sensors[..j] && upto[j] == sensors[j];
    assert FillPointAs(point, upto, name, time) == Put(FillPointAs(point, sensors[..j], name, time), name(sensors[j]), Get(point, sensors[j]));
    FillAfter(point, sensors, name, time, j + 1, name(sensors[j]));
  }

  /** Steps that write other names leave a name's value as it was. */
  lemma {:induction false} FillAfter(point: Record, sensors: seq<string>, name: string -> string, time: string, n: nat, key: string)
    requires n <= |sensors|
    requires forall l :: n <= l < |sensors| ==> name(sensors[l]) != key
    ensures Get(FillPointAs(point, sensors, name, time), key) == Get(FillPointAs(point, sensors[..n], name, time), key)
  {
    if n < |sensors| {
      var init := sensors[..|sensors| - 1];
      assert name(sensors[|sensors| - 1]) != key;
      forall l | n <= l < |init|
        ensures name(init[l]) != key
      {
        assert init[l] == sensors[l];
      }
      FillAfter(point, init, name, time, n, key);
      assert init[..n] == sensors[..n];
    } else {
      assert sensors[..n] == sensors;
    }
  }

  lemma PutOther(obj: Record, key: string, v: Value, other: string)
    requires other != key
    ensures Get(Put(obj, key, v), other) == Get(obj, other)
  {
  }

  lemma {:induction false} FillUntouched(point: Record, sensors: seq<string>, name: string -> string, time: string, key: string)
    requires forall j :: 0 <= j < |sensors| ==> name(sensors[j]) != key
    ensures Get(FillPointAs(point, sensors, name, time), key) == Get([Entry("time", Str(time))], key)
  {
    if sensors != [] {
      var init := sensors[..|sensors| - 1];
      assert name(sensors[|sensors| - 1]) != key;
      forall j | 0 <= j < |init|
        ensures name(init[j]) != key
      {
        assert init[j] == sensors[j];
      }
      FillUntouched(point, init, name, time, key);
    }
  }

  /** A point's keys are distinct: "time" and the display names of the
      sensors, each once. */
  lemma PointKeys(point: Record, sensors: seq<string>, time: string)
    ensures Distinct(Keys(FillPoint(point, sensors, time)))
    ensures forall k :: k in Keys(FillPoint(point, sensors, time)) <==> k == "time" || k in DisplaySensors(sensors)
  {
    FillKeys(point, sensors, DisplayName, time);
  }

  /** A point holds, under a sensor's display name, that sensor's value in
      the record, unless a later sensor has the same display name and
      overwrote it. */
  lemma PointValue(point: Record, sensors: seq<string>, time: string, j: nat)
    requires j < |sensors|
    requires forall l :: j < l < |sensors| ==> DisplayName(sensors[l]) != DisplayName(sensors[j])
    ensures Get(FillPoint(point, sensors, time), DisplayName(sensors[j])) == Get(point, sensors[j])
  {
    FillValue(point, sensors, DisplayName, time, j);
  }

  /** The label stays under "time" unless a sensor is displayed as "time". */
  lemma PointTime(point: Record, sensors: seq<string>, time: string)
    requires forall j :: 0 <= j < |sensors| ==> DisplayName(sensors[j]) != "time"
    ensures Get(FillPoint(point, sensors, time), "time") == Str(time)
  {
    FillUntouched(point, sensors, DisplayName, time, "time");
  }

  /** The inner `forEach` that fills one chart point. */
  method BuildPoint(point: TelemetryRecord, sensors: seq<string>, time: string) returns (dataPoint: Record)
    ensures dataPoint == FillPoint(point, sensors, time)
  {
    dataPoint := [Entry("time", Str(time))];
    for j := 0 to |sensors|
      invariant dataPoint == FillPoint(point, sensors[..j], time)
    {
      assert sensors[..j + 1][..j] == sensors[..j];
      dataPoint := Put(dataPoint, DisplayName(sensors[j]), Get(point, sensors[j]));
    }
    assert sensors[..|sensors|] == sensors;
  }

  /** `sorted.map(...)`: one point per record, in order, labelled with the
      record's formatted time. */
  method BuildChart(sorted: seq<TelemetryRecord>, sensors: seq<string>, dateOf: Value -> Option<int>, format: int -> string)
    returns (data: seq<Record>)
    ensures |data| == |sorted|
    ensures forall i :: 0 <= i < |sorted| ==> data[i] == FillPoint(sorted[i], sensors, TimeLabel(sorted[i], dateOf, format))
  {
    data := [];
    for i := 0 to |sorted|
      invariant |data| == i
      invariant forall k :: 0 <= k < i ==> data[k] == FillPoint(sorted[k], sensors, TimeLabel(sorted[k], dateOf, format))
    {
      var dataPoint := BuildPoint(sorted[i], sensors, TimeLabel(sorted[i], dateOf, format));
      data := data + [dataPoint];
    }
  }

  /** The whole `useMemo`: nothing for an empty history; otherwise one chart
      point per admitted record, oldest first, and the display names of the
      discovered sensors, one per sensor. */
  method BuildSeries(history: seq<TelemetryRecord>, frame: Frame, now: int, dateOf: Value -> Option<int>, format: int -> string)
    returns (chartData: seq<Record>, availableSensors: seq<string>)
    ensures history == [] ==> chartData == [] && availableSensors == []
    ensures history != [] ==>
      var sorted := SortedRecords(history, frame, now, dateOf);
      var sensors := DiscoveredKeys(sorted);
      && |chartData| == |Filtered(history, frame, now, dateOf)|
      && (forall i :: 0 <= i < |sorted| ==> chartData[i] == FillPoint(sorted[i], sensors, TimeLabel(sorted[i], dateOf, format)))
      && |availableSensors| == |sensors|
      && (forall i :: 0 <= i < |sensors| ==> availableSensors[i] == DisplayName(sensors[i]))
  {
    if history == [] {
      return [], [];
    }
    var filtered := Filter(history, AdmitTest(frame, now, dateOf));
    var sorted := Sort(filtered, Before(dateOf));
    var sensors := DiscoverSensors(sorted);
    chartData := BuildChart(sorted, sensors, dateOf, format);
    availableSensors := DisplaySensors(sensors);
  }
}
