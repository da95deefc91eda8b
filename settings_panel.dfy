/**
 * The settings panel's handlers: toggling a sensor or a lane in the
 * selection, the "show all" shortcut, whether a sensor counts as selected,
 * and how the speed-threshold inputs turn their text into a number.
 */
module SettingsPanel {
  import opened Wrappers
  import opened Seqs
  import opened SpeedData
  import opened Settings

  /** `includes(x) ? filter(y => y !== x) : [...xs, x]`. */
  function Toggle<T(==,!new)>(xs: seq<T>, x: T): (r: seq<T>)
    ensures x in r <==> x !in xs
    ensures forall y :: y != x ==> (y in r <==> y in xs)
    ensures x !in xs ==> r == xs + [x]
  {
    if x in xs then
      FilterMembership(xs, y => y != x, x);
      forall y | y != x
        ensures y in Filter(xs, z => z != x) <==> y in xs
      {
        FilterMembership(xs, z => z != x, y);
      }
      Filter(xs, y => y != x)
    else
      xs + [x]
  }

  /** Toggling an absent value twice gives back the original selection. */
  lemma ToggleTwice<T(!new)>(xs: seq<T>, x: T)
    requires x !in xs
    ensures Toggle(Toggle(xs, x), x) == xs
  {
    FilterAppend(xs, [x], y => y != x);
    FilterTrue(xs, y => y != x);
  }

  /** A selection without repeats stays without repeats. */
  lemma ToggleNoDuplicates<T(!new)>(xs: seq<T>, x: T)
    requires NoDuplicates(xs)
    ensures NoDuplicates(Toggle(xs, x))
  {
    if x in xs {
      FilterNoDuplicates(xs, y => y != x);
    } else {
      var r := xs + [x];
      forall i, j | 0 <= i < j < |r|
        ensures r[i] != r[j]
      {
        if j == |xs| {
          assert r[i] == xs[i];
        }
      }
    }
  }

  function SensorsPatch(sensors: seq<string>): SettingsPatch
  {
    EmptyPatch.(selectedSensors := Some(sensors))
  }

  function LanesPatch(lanes: seq<Lane>): SettingsPatch
  {
    EmptyPatch.(selectedLanes := Some(lanes))
  }

  /** `toggleSensor`: the update it sends changes only the sensor selection. */
  function ToggleSensor(s: AppSettings, sensor: string): (r: AppSettings)
    ensures r == s.(selectedSensors := Toggle(s.selectedSensors, sensor))
    ensures sensor in r.selectedSensors <==> sensor !in s.selectedSensors
  {
    Merge(s, SensorsPatch(Toggle(s.selectedSensors, sensor)))
  }

  /** `toggleLane`: the update it sends changes only the lane selection. */
  function ToggleLane(s: AppSettings, lane: Lane): (r: AppSettings)
    ensures r == s.(selectedLanes := Toggle(s.selectedLanes, lane))
    ensures lane in r.selectedLanes <==> lane !in s.selectedLanes
  {
    Merge(s, LanesPatch(Toggle(s.selectedLanes, lane)))
  }

  /** `isSensorSelected`: an empty selection stands for every sensor. */
  predicate IsSensorSelected(s: AppSettings, sensor: string)
  {
    |s.selectedSensors| == 0 || sensor in s.selectedSensors
  }

  /** From the empty selection (every sensor), a toggle selects that one sensor only. */
  lemma ToggleFromEmptySelectsOne(s: AppSettings, sensor: string, other: string)
    requires s.selectedSensors == []
    ensures ToggleSensor(s, sensor).selectedSensors == [sensor]
    ensures IsSensorSelected(ToggleSensor(s, sensor), other) <==> other == sensor
  {
  }

  /** "Tout afficher": clears the selection, after which every sensor is selected. */
  function ShowAll(s: AppSettings): (r: AppSettings)
    ensures r.selectedSensors == []
    ensures forall sensor :: IsSensorSelected(r, sensor)
    ensures r == s.(selectedSensors := [])
  {
    Merge(s, SensorsPatch([]))
  }

  /**
   * Toggling the only selected sensor off empties the selection, which
   * then selects every sensor again.
   */
  lemma ToggleLastSensorSelectsAll(s: AppSettings, sensor: string)
    requires s.selectedSensors == [sensor]
    ensures ToggleSensor(s, sensor).selectedSensors == []
    ensures forall other :: IsSensorSelected(ToggleSensor(s, sensor), other)
  {
  }

  /**
   * `parseInt(value) || fallback`: `text` is what `parseInt` returned, `None`
   * standing for `NaN`; both `NaN` and `0` are falsy and give the fallback.
   */
  function ParsedOr(text: Option<int>, fallback: int): (r: int)
    ensures text.Some? && text.value != 0 ==> r == text.value
    ensures text.None? || text.value == 0 ==> r == fallback
  {
    match text
    case Some(n) => if n != 0 then n else fallback
    case None => fallback
  }

  /** The minimum-speed input: an empty or non-numeric entry sets 0. */
  function MinThreshold(s: AppSettings, text: Option<int>): (r: AppSettings)
    ensures r.speedThresholdMin == 0 <==> text.None? || text.value == 0
    ensures text.Some? && text.value != 0 ==> r.speedThresholdMin == text.value
    ensures r == s.(speedThresholdMin := r.speedThresholdMin)
  {
    Merge(s, EmptyPatch.(speedThresholdMin := Some(ParsedOr(text, 0))))
  }

  /** The maximum-speed input: an empty, non-numeric or zero entry sets 350, so the maximum never becomes 0. */
  function MaxThreshold(s: AppSettings, text: Option<int>): (r: AppSettings)
    ensures r.speedThresholdMax != 0
    ensures text.None? || text.value == 0 ==> r.speedThresholdMax == 350
    ensures text.Some? && text.value != 0 ==> r.speedThresholdMax == text.value
    ensures r == s.(speedThresholdMax := r.speedThresholdMax)
  {
    Merge(s, EmptyPatch.(speedThresholdMax := Some(ParsedOr(text, 350))))
  }
}
