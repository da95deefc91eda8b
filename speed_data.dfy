/** The reading type every dashboard component consumes. */
module SpeedData {
  import opened Wrappers

  /** The two lanes of the track; the enum's string values are "Left" and "Right". */
  datatype Lane = Left | Right

  function LaneName(l: Lane): string
  {
    match l
    case Left => "Left"
    case Right => "Right"
  }

  /**
   * One sensor observation. `createdAt` is the instant of the ISO-8601
   * `created_at` text, in milliseconds since the epoch; `speed` is in km/h.
   */
  datatype Reading = Reading(id: int, sensorName: Option<string>, speed: real, lane: Lane, createdAt: int)

  /** `name || fallback`: a missing name and the empty name are both falsy. */
  function NameOr(name: Option<string>, fallback: string): (r: string)
    ensures name.Some? && name.value != "" ==> r == name.value
    ensures name.None? || name.value == "" ==> r == fallback
  {
    if name.Some? && name.value != "" then name.value else fallback
  }

  const MillisPerMinute: int := 60 * 1000
  const MillisPerHour: int := 60 * MillisPerMinute

  /**
   * The hour of day of an instant (`getHours()`, date-fns `"HH"`), taken in
   * UTC: the local time-zone offset is not modelled.
   */
  function HourOf(ts: int): (h: int)
    ensures 0 <= h < 24
  {
    (ts / MillisPerHour) % 24
  }

  /** `data.map(d => d.speed)`. */
  function Speeds(data: seq<Reading>): (r: seq<real>)
    ensures |r| == |data|
    ensures forall i :: 0 <= i < |data| ==> r[i] == data[i].speed
  {
    seq(|data|, i requires 0 <= i < |data| => data[i].speed)
  }

  /** `d.sensor_name || "Unknown"`: the grouping key of the per-sensor widgets. */
  function SensorKey(r: Reading): string
  {
    NameOr(r.sensorName, "Unknown")
  }
}
