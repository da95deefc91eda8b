/**
 * The simulation's synthetic readings: the back-filled seed corpus of one
 * reading per minute, and the single readings generated later. Each call of
 * `Math.random()` is an input: a `Draw` carries the four values one reading
 * consumes, each in [0, 1).
 */
module MockData {
  import opened Wrappers
  import opened SpeedData
  import opened Stats
  import opened Sorting

  /** The fixed catalog of sensor names a simulated reading is drawn from. */
  const Sensors: seq<string> := [
    "Sector 1 Entry", "Sector 1 Exit", "Sector 2 Entry", "Sector 2 Exit",
    "Sector 3 Entry", "Sector 3 Exit", "Finish Line", "Pit Entry"
  ]

  /** The size of the seed corpus `mockSpeedData`. */
  const MockCount: nat := 120

  /**
   * The values of the `Math.random()` calls one clamped reading consumes, in
   * the order the source makes them: base speed, variation, sensor, lane.
   */
  datatype Draw = Draw(base: real, variation: real, sensor: real, lane: real)

  predicate Unit(r: real) { 0.0 <= r < 1.0 }

  predicate ValidDraw(d: Draw)
  {
    Unit(d.base) && Unit(d.variation) && Unit(d.sensor) && Unit(d.lane)
  }

  /** `Math.max(lo, Math.min(hi, x))`. */
  function Clamp(x: real, lo: real, hi: real): real
  {
    if hi < x then (if lo > hi then lo else hi) else if lo > x then lo else x
  }

  /**
   * `150 + base * 150` perturbed by `(variation - 0.5) * 40`, clamped to
   * [80, 350], then rounded to one decimal place.
   */
  function SimulatedSpeed(d: Draw): (s: real)
    ensures 80.0 <= s <= 350.0
  {
    var raw := 150.0 + d.base * 150.0 + (d.variation - 0.5) * 40.0;
    var clamped := Clamp(raw, 80.0, 350.0);
    RoundTenthWithin(clamped, 800, 3500);
    RoundTenth(clamped)
  }

  /** `Math.floor(r * sensors.length)`. */
  function SensorIndex(r: real): (i: nat)
    requires Unit(r)
    ensures i < |Sensors|
  {
    (r * 8.0).Floor
  }

  /** `Math.random() > 0.5 ? Lane.Left : Lane.Right`. */
  function LaneOf(r: real): Lane
  {
    if r > 0.5 then Left else Right
  }

  /** One simulated reading with the given id and timestamp. */
  function SimulatedReading(id: int, ts: int, d: Draw): (r: Reading)
    requires ValidDraw(d)
    ensures r.id == id && r.createdAt == ts
    ensures 80.0 <= r.speed <= 350.0
    ensures r.sensorName.Some? && r.sensorName.value in Sensors
  {
    Reading(id, Some(Sensors[SensorIndex(d.sensor)]), SimulatedSpeed(d), LaneOf(d.lane), ts)
  }

  /**
   * The exported `generateRealtimeData()`: its id is the current time, and
   * its speed `150 + r * 150` is rounded but not perturbed or clamped.
   */
  function UnclampedReading(nowMs: int, sensorDraw: real, speedDraw: real, laneDraw: real): (r: Reading)
    requires Unit(sensorDraw) && Unit(speedDraw)
    ensures r.id == nowMs && r.createdAt == nowMs
    ensures 150.0 <= r.speed <= 300.0
    ensures r.sensorName.Some? && r.sensorName.value in Sensors
  {
    var raw := 150.0 + speedDraw * 150.0;
    RoundTenthWithin(raw, 1500, 3000);
    Reading(nowMs, Some(Sensors[SensorIndex(sensorDraw)]), RoundTenth(raw), LaneOf(laneDraw), nowMs)
  }

  /** The comparator of the final sort, `a.created_at - b.created_at <= 0`. */
  function NotLater(a: Reading, b: Reading): bool
  {
    a.createdAt <= b.createdAt
  }

  /** The timestamp of the i-th of `count` seed readings: `count - i` minutes before `now`. */
  function SeedTime(now: int, count: nat, i: nat): (t: int)
    ensures i < count ==> t < now
  {
    now - (count - i) * 60000
  }

  /**
   * `generateSpeedData(count)`: one reading per minute up to `now`, numbered
   * from 1, then sorted by timestamp.
   */
  method GenerateSpeedData(count: nat, now: int, draws: seq<Draw>) returns (data: seq<Reading>)
    requires |draws| >= count
    requires forall i :: 0 <= i < |draws| ==> ValidDraw(draws[i])
    ensures |data| == count
    ensures forall i :: 0 <= i < count ==> data[i] == SimulatedReading(i + 1, SeedTime(now, count, i), draws[i])
    ensures forall i :: 0 <= i < count ==> data[i].id == i + 1 && data[i].createdAt < now
    ensures forall i, j :: 0 <= i < j < count ==> data[i].createdAt < data[j].createdAt
    ensures forall i :: 0 <= i < count ==> 80.0 <= data[i].speed <= 350.0
  {
    data := [];
    for i := 0 to count
      invariant |data| == i
      invariant forall k :: 0 <= k < i ==> data[k] == SimulatedReading(k + 1, SeedTime(now, count, k), draws[k])
    {
      data := data + [SimulatedReading(i + 1, SeedTime(now, count, i), draws[i])];
    }
    SeedInOrder(data, now, count);
    data := SortBy(data, NotLater);
    forall i, j | 0 <= i < j < count
      ensures data[i].createdAt < data[j].createdAt
    {
      assert data[i].createdAt == SeedTime(now, count, i);
      assert data[j].createdAt == SeedTime(now, count, j);
    }
  }

  /** The seed is generated in timestamp order, so the final sort leaves it unchanged. */
  lemma SeedInOrder(data: seq<Reading>, now: int, count: nat)
    requires |data| == count
    requires forall k :: 0 <= k < count ==> data[k].createdAt == SeedTime(now, count, k)
    ensures SortBy(data, NotLater) == data
  {
    assert SortedBy(data, NotLater);
    SortByIdentity(data, NotLater);
  }

  /** `mockSpeedData`: the seed corpus of `MockCount` readings. */
  method MockSpeedData(now: int, draws: seq<Draw>) returns (data: seq<Reading>)
    requires |draws| >= MockCount
    requires forall i :: 0 <= i < |draws| ==> ValidDraw(draws[i])
    ensures |data| == MockCount
    ensures forall i :: 0 <= i < |data| ==> data[i].id == i + 1
  {
    data := GenerateSpeedData(MockCount, now, draws);
  }
}
