/** How the telemetry graph (src/components/TelemetryGraph.tsx) decides when a
    record was taken, and which records fall inside the selected time frame.
    The component resolves a record's time three times over, with the same
    priority chain each time: in the filter, in the sort comparator and when
    it labels a chart point. Times are integer milliseconds since the epoch;
    `new Date(v)` on a field value is the parameter `dateOf`, which gives
    `None` for an Invalid Date. */
module TelemetryTime {
  import opened Wrappers
  import opened JsValue
  import opened ObjectId

  /** A time frame: the last `hours` hours, or `All` (`hours: Infinity`). */
  datatype Frame = Hours(hours: nat) | All

  /** The frames the graph offers as buttons, shortest first. */
  const TIME_FRAMES: seq<Frame> := [Hours(1), Hours(6), Hours(12), Hours(24), Hours(72), Hours(168), All]

  const MS_PER_HOUR: nat := 60 * 60 * 1000

  /** The furthest a `Date` can lie from the epoch, in milliseconds; beyond
      it `new Date` gives an Invalid Date. */
  const MAX_TIME: int := 8_640_000_000_000_000

  /** What `toLocaleString` gives for an Invalid Date. */
  const INVALID_DATE_LABEL := "Invalid Date"

  /** The label of a point whose record has no time. */
  const UNKNOWN_LABEL := "Unknown"

  /** A record whose `_id`, when it is a 24-character string that the chain
      falls back to (no time field is truthy), starts with eight hex digits,
      so that decoding it cannot produce an Invalid Date. An `_id` behind a
      truthy time field is never read and may be anything. */
  predicate HexIds(r: Record) {
    var id := Get(r, "_id");
    !Truthy(FieldChain(r)) && id.Str? && |id.s| == ID_LENGTH ==> AllHex(id.s[..SECONDS_DIGITS])
  }

  type TelemetryRecord = r: Record | HexIds(r) witness []

  /** `extractTimestampFromId(point._id)`: only a 24-character string has a
      time; any other value gives `null` (directly, or through the `catch`
      around `substring`). */
  function IdTime(r: TelemetryRecord): (t: Option<int>)
    requires !Truthy(FieldChain(r))
    ensures t.Some? ==> Get(r, "_id").Str? && |Get(r, "_id").s| == ID_LENGTH
    ensures t.Some? ==> 0 <= t.value < Pow16(SECONDS_DIGITS) * 1000
  {
    var id := Get(r, "_id");
    if id.Str? then ExtractTimestampFromId(id.s) else None
  }

  /** `a || b`. */
  function Or(a: Value, b: Value): Value {
    if Truthy(a) then a else b
  }

  /** `point.ts || point.timestamp || point.createdAt || point.updatedAt`. */
  function FieldChain(r: Record): Value {
    Or(Or(Or(Get(r, "ts"), Get(r, "timestamp")), Get(r, "createdAt")), Get(r, "updatedAt"))
  }

  /** The fields a time is read from, in order of priority. */
  const PRIORITY: seq<string> := ["ts", "timestamp", "createdAt", "updatedAt"]

  /** The value of the first field of `names` that is truthy in `r`. */
  function FirstTruthy(r: Record, names: seq<string>): (v: Option<Value>)
    ensures v.Some? ==> Truthy(v.value)
    ensures v.Some? <==> exists i :: 0 <= i < |names| && Truthy(Get(r, names[i]))
  {
    if names == [] then None
    else if Truthy(Get(r, names[0])) then Some(Get(r, names[0]))
    else
      assert forall i :: 1 <= i < |names| ==> names[i] == names[1..][i - 1];
      FirstTruthy(r, names[1..])
  }

  /** What a record's time resolves to. */
  datatype Stamp = Missing | Invalid | At(ms: int)

  /** The resolution rule stated once: the first truthy field of `PRIORITY`,
      parsed as a date; and only when none of them is truthy, the time in
      the record's `_id`. */
  function StampOf(r: TelemetryRecord, dateOf: Value -> Option<int>): Stamp {
    match FirstTruthy(r, PRIORITY)
    case Some(v) => (match dateOf(v) case Some(ms) => At(ms) case None => Invalid)
    case None =>
      ChainIsPriority(r);
      match IdTime(r) case Some(ms) => At(ms) case None => Missing
  }

  /** What the component's `timestamp` variable holds once the chain has run:
      a field value, or the ISO string of an id's time, which `new Date`
      reads back to the same millisecond. */
  datatype TimeText = Raw(v: Value) | Iso(ms: int)

  /** `!!timestamp`: an ISO string is never empty. */
  predicate TextTruthy(t: TimeText) {
    t.Iso? || Truthy(t.v)
  }

  /** `new Date(timestamp)`. */
  function DateOfText(t: TimeText, dateOf: Value -> Option<int>): Option<int> {
    match t
    case Raw(v) => dateOf(v)
    case Iso(ms) => Some(ms)
  }

  /** The chain as the filter and the point labelling write it: when no field
      is truthy and `_id` is, an id time replaces the falsy value; a missing
      id time leaves the falsy value in place. */
  function ResolveText(r: TelemetryRecord): TimeText {
    var t := FieldChain(r);
    if !Truthy(t) && Truthy(Get(r, "_id")) then
      match IdTime(r)
      case Some(ms) => Iso(ms)
      case None => Raw(t)
    else Raw(t)
  }

  /** The chain as the sort comparator writes it: `?.toISOString()` turns a
      missing id time into `undefined`. */
  function SortText(r: TelemetryRecord): TimeText {
    var t := FieldChain(r);
    if !Truthy(t) && Truthy(Get(r, "_id")) then
      match IdTime(r)
      case Some(ms) => Iso(ms)
      case None => Raw(Undefined)
    else Raw(t)
  }

  /** `cutoffTime`: `now` less the frame's hours; an Invalid Date when that
      leaves the range of `Date`, and always for `All`, whose hours are
      Infinity. */
  function Cutoff(frame: Frame, now: int): (c: Option<int>)
    ensures c.Some? ==> frame.Hours? && c.value == now - frame.hours * MS_PER_HOUR
    ensures frame.Hours? && -MAX_TIME <= now - frame.hours * MS_PER_HOUR <= MAX_TIME ==> c.Some?
  {
    match frame
    case All => None
    case Hours(h) =>
      var c := now - h * MS_PER_HOUR;
      if -MAX_TIME <= c <= MAX_TIME then Some(c) else None
  }

  /** The `history.filter` callback: a record without a time is dropped;
      `All` keeps every other one; a finite frame keeps a record whose date
      is not before the cutoff (a comparison with an Invalid Date is false). */
  predicate Admitted(r: TelemetryRecord, frame: Frame, now: int, dateOf: Value -> Option<int>) {
    var t := ResolveText(r);
    TextTruthy(t)
    && (frame.All?
        || (var p, c := DateOfText(t, dateOf), Cutoff(frame, now); p.Some? && c.Some? && p.value >= c.value))
  }

  /** `new Date(timeA || 0).getTime()` in the sort comparator, with `None`
      for NaN. */
  function SortTime(r: TelemetryRecord, dateOf: Value -> Option<int>): Option<int> {
    var t := SortText(r);
    if TextTruthy(t) then DateOfText(t, dateOf) else Some(0)
  }

  /** `formattedTime`: the opaque `format` (`toLocaleString` with the graph's
      options) of the record's date, "Invalid Date" for an Invalid Date, and
      "Unknown" when the record has no time. */
  function TimeLabel(r: TelemetryRecord, dateOf: Value -> Option<int>, format: int -> string): string {
    var t := ResolveText(r);
    if !TextTruthy(t) then UNKNOWN_LABEL
    else
      match DateOfText(t, dateOf)
      case Some(ms) => format(ms)
      case None => INVALID_DATE_LABEL
  }

  /** The `||` chain is "the first truthy field in priority order"; when none
      is truthy it yields a falsy value. */
  lemma ChainIsPriority(r: Record)
    ensures Truthy(FieldChain(r)) <==> FirstTruthy(r, PRIORITY).Some?
    ensures FirstTruthy(r, PRIORITY).Some? ==> FieldChain(r) == FirstTruthy(r, PRIORITY).value
  {
    var ts, timestamp, createdAt, updatedAt := Get(r, "ts"), Get(r, "timestamp"), Get(r, "createdAt"), Get(r, "updatedAt");
    var p1, p2, p3 := PRIORITY[1..], PRIORITY[2..], PRIORITY[3..];
    assert p1[1..] == p2 && p2[1..] == p3 && p3[1..] == [];
    assert FirstTruthy(r, p3) == if Truthy(updatedAt) then Some(updatedAt) else None;
    assert FirstTruthy(r, p2) == if Truthy(createdAt) then Some(createdAt) else FirstTruthy(r, p3);
    assert FirstTruthy(r, p1) == if Truthy(timestamp) then Some(timestamp) else FirstTruthy(r, p2);
    assert FirstTruthy(r, PRIORITY) == if Truthy(ts) then Some(ts) else FirstTruthy(r, p1);
  }

  /** The filter's and the labelling's copy of the chain yield a time exactly
      when the record's stamp is not `Missing`, and then the stamp's date. */
  lemma ResolveAgrees(r: TelemetryRecord, dateOf: Value -> Option<int>)
    ensures TextTruthy(ResolveText(r)) <==> !StampOf(r, dateOf).Missing?
    ensures TextTruthy(ResolveText(r)) ==>
      DateOfText(ResolveText(r), dateOf) == (if StampOf(r, dateOf).At? then Some(StampOf(r, dateOf).ms) else None)
  {
    ChainIsPriority(r);
  }

  /** Copy one (the filter): the admission rule in terms of the stamp. */
  lemma AdmittedByStamp(r: TelemetryRecord, frame: Frame, now: int, dateOf: Value -> Option<int>)
    ensures Admitted(r, frame, now, dateOf) <==>
      match StampOf(r, dateOf)
      case Missing => false
      case Invalid => frame.All?
      case At(ms) => frame.All? || (Cutoff(frame, now).Some? && ms >= Cutoff(frame, now).value)
  {
    ResolveAgrees(r, dateOf);
  }

  /** Copy two (the comparator): the sort time in terms of the stamp. A
      record without a time sorts as the epoch; an Invalid Date is NaN. */
  lemma SortTimeByStamp(r: TelemetryRecord, dateOf: Value -> Option<int>)
    ensures SortTime(r, dateOf) ==
      match StampOf(r, dateOf)
      case Missing => Some(0)
      case Invalid => None
      case At(ms) => Some(ms)
  {
    ChainIsPriority(r);
  }

  /** Copy three (the labels): the label in terms of the stamp. */
  lemma LabelByStamp(r: TelemetryRecord, dateOf: Value -> Option<int>, format: int -> string)
    ensures TimeLabel(r, dateOf, format) ==
      match StampOf(r, dateOf)
      case Missing => UNKNOWN_LABEL
      case Invalid => INVALID_DATE_LABEL
      case At(ms) => format(ms)
  {
    ResolveAgrees(r, dateOf);
  }

  /** The `_id` is consulted only when every field of `PRIORITY` is falsy:
      two records that agree on a truthy field of that list resolve alike. */
  lemma IdOnlyAsLastResort(r: TelemetryRecord, s: TelemetryRecord, dateOf: Value -> Option<int>)
    requires FirstTruthy(r, PRIORITY).Some?
    requires forall i :: 0 <= i < |PRIORITY| ==> Get(r, PRIORITY[i]) == Get(s, PRIORITY[i])
    ensures StampOf(r, dateOf) == StampOf(s, dateOf)
  {
    ChainIsPriority(r);
    ChainIsPriority(s);
    assert FieldChain(r) == FieldChain(s) by {
      assert Get(r, PRIORITY[0]) == Get(s, PRIORITY[0]);
      assert Get(r, PRIORITY[1]) == Get(s, PRIORITY[1]);
      assert Get(r, PRIORITY[2]) == Get(s, PRIORITY[2]);
      assert Get(r, PRIORITY[3]) == Get(s, PRIORITY[3]);
    }
  }

  /** `All` admits exactly the records that have a time, whether or not it
      parses; no frame admits a record without one. */
  lemma AllAdmitsTimed(r: TelemetryRecord, frame: Frame, now: int, dateOf: Value -> Option<int>)
    ensures Admitted(r, All, now, dateOf) <==> !StampOf(r, dateOf).Missing?
    ensures StampOf(r, dateOf).Missing? ==> !Admitted(r, frame, now, dateOf)
  {
    AdmittedByStamp(r, All, now, dateOf);
    AdmittedByStamp(r, frame, now, dateOf);
  }

  /** A finite frame whose cutoff is a valid date admits a record exactly
      when the record's time is valid and at least `now - hours * 3600000`. */
  lemma FiniteFrameAdmits(r: TelemetryRecord, hours: nat, now: int, dateOf: Value -> Option<int>)
    requires -MAX_TIME <= now - hours * MS_PER_HOUR
    requires now <= MAX_TIME
    ensures Admitted(r, Hours(hours), now, dateOf) <==>
      StampOf(r, dateOf).At? && StampOf(r, dateOf).ms >= now - hours * MS_PER_HOUR
  {
    AdmittedByStamp(r, Hours(hours), now, dateOf);
  }

  /** One frame is at least as wide as another. */
  predicate Wider(wide: Frame, narrow: Frame) {
    wide.All? || (narrow.Hours? && narrow.hours <= wide.hours)
  }

  /** A wider frame admits whatever a narrower one does, provided the wider
      frame's cutoff is a valid date (for `All` there is no cutoff). */
  lemma WiderAdmitsMore(r: TelemetryRecord, wide: Frame, narrow: Frame, now: int, dateOf: Value -> Option<int>)
    requires Wider(wide, narrow)
    requires wide.Hours? ==> Cutoff(wide, now).Some?
    ensures Admitted(r, narrow, now, dateOf) ==> Admitted(r, wide, now, dateOf)
  {
    AdmittedByStamp(r, wide, now, dateOf);
    AdmittedByStamp(r, narrow, now, dateOf);
  }

  /** The buttons are ordered from narrowest to widest, and for any clock
      reading a week past the earliest date their cutoffs are all valid. */
  lemma TimeFramesNested(i: nat, j: nat, now: int)
    requires i <= j < |TIME_FRAMES|
    requires -MAX_TIME + 168 * MS_PER_HOUR <= now <= MAX_TIME
    ensures Wider(TIME_FRAMES[j], TIME_FRAMES[i])
    ensures TIME_FRAMES[j].Hours? ==> Cutoff(TIME_FRAMES[j], now).Some?
  {
  }
}
