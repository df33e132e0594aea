/** The state the telemetry graph keeps between renders
    (src/components/TelemetryGraph.tsx): the selected time frame and the list
    of selected sensors, with the toggle and the default selection that
    update it. */
module GraphView {
  import opened Seqs
  import opened TelemetryTime

  /** How many sensors an empty selection is filled with. */
  const DEFAULT_SELECTION_SIZE := 4

  /** `prev.includes(sensor) ? prev.filter(s => s !== sensor) : [...prev, sensor]`. */
  function Toggled(prev: seq<string>, sensor: string): seq<string> {
    if sensor in prev then Filter(prev, s => s != sensor) else prev + [sensor]
  }

  /** `availableSensors.slice(0, 4)`. */
  function DefaultSelection(available: seq<string>): seq<string> {
    if |available| <= DEFAULT_SELECTION_SIZE then available else available[..DEFAULT_SELECTION_SIZE]
  }

  /** Toggling flips the membership of the given sensor and of no other. */
  lemma ToggleFlips(prev: seq<string>, sensor: string)
    ensures sensor in Toggled(prev, sensor) <==> sensor !in prev
    ensures forall other :: other != sensor ==> (other in Toggled(prev, sensor) <==> other in prev)
  {
  }

  /** The other sensors keep their order: leaving out the toggled sensor,
      the selection is the same before and after. */
  lemma {:induction false} ToggleKeepsOrder(prev: seq<string>, sensor: string)
    ensures Filter(Toggled(prev, sensor), s => s != sensor) == Filter(prev, s => s != sensor)
  {
    var others := (s: string) => s != sensor;
    if sensor in prev {
      FilterFilter(prev, others, others, others);
    } else {
      FilterAppend(prev, [sensor], others);
      assert Filter([sensor], others) == [];
    }
  }

  /** A sensor that is absent is appended last; one that is present is
      removed, every copy of it. */
  lemma ToggleShape(prev: seq<string>, sensor: string)
    ensures sensor !in prev ==> Toggled(prev, sensor) == prev + [sensor]
    ensures sensor in prev ==> |Toggled(prev, sensor)| < |prev|
  {
    if sensor in prev {
      FilterShorter(prev, sensor);
    }
  }

  lemma {:induction false} FilterShorter(s: seq<string>, x: string)
    requires x in s
    ensures |Filter(s, y => y != x)| < |s|
  {
    if s[0] != x {
      FilterShorter(s[1..], x);
    }
  }

  /** Toggling a sensor in and out again gives back the selection. */
  lemma ToggleTwice(prev: seq<string>, sensor: string)
    requires sensor !in prev
    ensures Toggled(Toggled(prev, sensor), sensor) == prev
  {
    var others := (s: string) => s != sensor;
    FilterAppend(prev, [sensor], others);
    assert Filter([sensor], others) == [];
    FilterAll(prev, others);
  }

  /** Toggling a selected sensor off and on again selects it again, but at
      the end of the list, not where it was. */
  lemma ToggleOffOn(prev: seq<string>, sensor: string)
    requires sensor in prev
    ensures Toggled(Toggled(prev, sensor), sensor) == Filter(prev, s => s != sensor) + [sensor]
  {
    var others := Filter(prev, s => s != sensor);
    assert sensor !in others;
  }

  /** A selection without repeats stays without repeats. */
  lemma ToggleDistinct(prev: seq<string>, sensor: string)
    requires Distinct(prev)
    ensures Distinct(Toggled(prev, sensor))
  {
    if sensor in prev {
      FilterDistinct(prev, s => s != sensor);
    }
  }

  lemma {:induction false} FilterDistinct(s: seq<string>, p: string -> bool)
    requires Distinct(s)
    ensures Distinct(Filter(s, p))
  {
    if s != [] {
      assert forall i, j :: 0 <= i < j < |s[1..]| ==> s[1..][i] == s[i + 1] && s[1..][j] == s[j + 1];
      FilterDistinct(s[1..], p);
      assert s[0] !in s[1..];
    }
  }

  /** The default selection is the first `min(4, n)` available sensors. */
  lemma DefaultSelectionSpec(available: seq<string>)
    ensures |DefaultSelection(available)| == if |available| < DEFAULT_SELECTION_SIZE then |available| else DEFAULT_SELECTION_SIZE
    ensures forall i :: 0 <= i < |DefaultSelection(available)| ==> DefaultSelection(available)[i] == available[i]
  {
  }

  /** The graph's selection state. */
  class GraphState {
    var selectedTimeFrame: Frame
    var selectedSensors: seq<string>

    /** `useState(timeFrameHours)` and `useState([])`. */
    constructor (timeFrameHours: Frame)
      ensures selectedTimeFrame == timeFrameHours && selectedSensors == []
    {
      selectedTimeFrame := timeFrameHours;
      selectedSensors := [];
    }

    /** A time-frame button: `setSelectedTimeFrame(tf.hours)`. */
    method SelectTimeFrame(frame: Frame)
      modifies this
      ensures selectedTimeFrame == frame && selectedSensors == old(selectedSensors)
    {
      selectedTimeFrame := frame;
    }

    /** `toggleSensor`. */
    method ToggleSensor(sensor: string)
      modifies this
      ensures selectedSensors == Toggled(old(selectedSensors), sensor)
      ensures sensor in selectedSensors <==> sensor !in old(selectedSensors)
      ensures forall other :: other != sensor ==> (other in selectedSensors <==> other in old(selectedSensors))
      ensures selectedTimeFrame == old(selectedTimeFrame)
    {
      ToggleFlips(selectedSensors, sensor);
      if sensor in selectedSensors {
        selectedSensors := Filter(selectedSensors, s => s != sensor);
      } else {
        selectedSensors := selectedSensors + [sensor];
      }
    }

    /** The default-selection step: an empty selection takes the first four
        available sensors once there are any; a non-empty one is left alone. */
    method FillDefault(availableSensors: seq<string>)
      modifies this
      ensures old(selectedSensors) == [] && availableSensors != [] ==> selectedSensors == DefaultSelection(availableSensors)
      ensures !(old(selectedSensors) == [] && availableSensors != []) ==> selectedSensors == old(selectedSensors)
      ensures selectedTimeFrame == old(selectedTimeFrame)
    {
      if |availableSensors| > 0 && |selectedSensors| == 0 {
        selectedSensors := availableSensors[..if |availableSensors| < DEFAULT_SELECTION_SIZE then |availableSensors| else DEFAULT_SELECTION_SIZE];
      }
    }
  }
}
