/**
 * The real-time speed chart: one x-axis point per distinct timestamp, in
 * ascending order, and for each lane the speed recorded at that timestamp
 * or a gap.
 */
module SpeedChart {
  import opened Wrappers
  import opened Seqs
  import opened Sorting
  import opened SpeedData

  /** `Array.from(new Set(data.map(d => d.created_at))).sort()`. */
  function AllTimestamps(data: seq<Reading>): (r: seq<int>)
    ensures forall i, j :: 0 <= i < j < |r| ==> r[i] < r[j]
    ensures forall t :: t in r <==> exists i :: 0 <= i < |data| && data[i].createdAt == t
  {
    var stamps := Map(data, (d: Reading) => d.createdAt);
    var distinct := Distinct(stamps);
    var r := SortBy(distinct, IntLe);
    NumericOrdersTotal();
    SortBySorted(distinct, IntLe);
    SortByMembership(distinct, IntLe);
    forall t
      ensures t in r <==> t in stamps
    {
      DistinctMembership(stamps, t);
    }
    r
  }

  /** Reading `i` is the last one of that lane at `t`. */
  predicate LastAt(data: seq<Reading>, lane: Lane, t: int, i: int)
  {
    && 0 <= i < |data| && data[i].lane == lane && data[i].createdAt == t
    && forall j :: i < j < |data| ==> !(data[j].lane == lane && data[j].createdAt == t)
  }

  /**
   * `new Map(laneData.map(d => [d.created_at, d.speed])).get(t)`: entries are
   * set in input order, so the last reading of that lane at `t` wins.
   */
  function LaneSpeedAt(data: seq<Reading>, lane: Lane, t: int): (r: Option<real>)
    ensures r.None? <==> forall i :: 0 <= i < |data| ==> !(data[i].lane == lane && data[i].createdAt == t)
    ensures r.Some? ==> exists i :: LastAt(data, lane, t, i) && data[i].speed == r.value
  {
    if data == [] then None else
    var init := data[..|data| - 1];
    var last := data[|data| - 1];
    assert forall i :: 0 <= i < |init| ==> init[i] == data[i];
    if last.lane == lane && last.createdAt == t then
      assert LastAt(data, lane, t, |data| - 1);
      Some(last.speed)
    else
      var r := LaneSpeedAt(init, lane, t);
      if r.None? then r else
      var i :| LastAt(init, lane, t, i) && init[i].speed == r.value;
      assert LastAt(data, lane, t, i);
      r
  }

  /** `timestamps.map(ts => laneMap.get(ts) ?? null)`. */
  function LaneSeries(data: seq<Reading>, lane: Lane): (r: seq<Option<real>>)
    ensures |r| == |AllTimestamps(data)|
    ensures forall i :: 0 <= i < |r| ==> r[i] == LaneSpeedAt(data, lane, AllTimestamps(data)[i])
  {
    var ts := AllTimestamps(data);
    Map(ts, (t: int) => LaneSpeedAt(data, lane, t))
  }

  /** Every x-axis point has a value in at least one of the two lanes. */
  lemma SomeLaneAtEveryPoint(data: seq<Reading>, i: nat)
    requires i < |AllTimestamps(data)|
    ensures LaneSeries(data, Left)[i].Some? || LaneSeries(data, Right)[i].Some?
  {
    var ts := AllTimestamps(data);
    var t := ts[i];
    assert t in ts;
    var k :| 0 <= k < |data| && data[k].createdAt == t;
    assert LaneSeries(data, Left)[i] == LaneSpeedAt(data, Left, t);
    assert LaneSeries(data, Right)[i] == LaneSpeedAt(data, Right, t);
    if data[k].lane == Left {
      assert LaneSpeedAt(data, Left, t).Some?;
    } else {
      assert LaneSpeedAt(data, Right, t).Some?;
    }
  }
}
