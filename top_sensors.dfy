/**
 * The top-sensors card: per-sensor statistics (a missing name grouped under
 * "Unknown"), sorted by reading count, most active first, and cut to the
 * first five.
 */
module TopSensors {
  import opened Seqs
  import opened Stats
  import opened SpeedData
  import opened Grouping
  import opened Sorting

  datatype SensorStat = SensorStat(name: string, count: nat, avgSpeed: real, maxSpeed: real, minSpeed: real)

  /** How many sensors the card lists. */
  const TopCount: nat := 5

  /** One sensor's entry: its count and its rounded mean, maximum and minimum speed. */
  function StatOf(name: string, b: Bucket): (r: SensorStat)
    requires |b.speeds| > 0
    ensures r.name == name && r.count == b.count
    ensures r.minSpeed == RoundTenth(Min(b.speeds)) && r.maxSpeed == RoundTenth(Max(b.speeds))
    ensures r.avgSpeed == RoundTenth(Mean(b.speeds))
    ensures r.minSpeed <= r.avgSpeed <= r.maxSpeed
  {
    MeanBounds(b.speeds);
    RoundTenthMonotone(Min(b.speeds), Mean(b.speeds));
    RoundTenthMonotone(Mean(b.speeds), Max(b.speeds));
    SensorStat(name, b.count, RoundTenth(Mean(b.speeds)), RoundTenth(Max(b.speeds)), RoundTenth(Min(b.speeds)))
  }

  /** What `sensorStats` holds: one entry per sensor, in first-appearance order, from that sensor's readings. */
  function StatsBySensor(data: seq<Reading>): (r: seq<SensorStat>)
    ensures |r| == |KeysOf(data, SensorKey)|
  {
    var sensors := KeysOf(data, SensorKey);
    assert forall i :: 0 <= i < |sensors| ==> |SpeedsWithKey(data, SensorKey, sensors[i])| > 0 by {
      forall i | 0 <= i < |sensors|
        ensures |SpeedsWithKey(data, SensorKey, sensors[i])| > 0
      {
        BucketNonEmpty(data, SensorKey, sensors[i]);
      }
    }
    seq(|sensors|, i requires 0 <= i < |sensors| =>
      StatOf(sensors[i], Bucket(SpeedsWithKey(data, SensorKey, sensors[i]), CountKey(data, SensorKey, sensors[i]))))
  }

  /** `sensorStats`: the grouping `reduce` followed by one `StatOf` per group. */
  method SensorStats(data: seq<Reading>) returns (stats: seq<SensorStat>)
    ensures stats == StatsBySensor(data)
    ensures |stats| == |KeysOf(data, SensorKey)|
    ensures forall i :: 0 <= i < |stats| ==>
      var name := KeysOf(data, SensorKey)[i];
      && stats[i].name == name
      && stats[i].count == CountKey(data, SensorKey, name)
      && |SpeedsWithKey(data, SensorKey, name)| > 0
      && stats[i].avgSpeed == RoundTenth(Mean(SpeedsWithKey(data, SensorKey, name)))
      && stats[i].maxSpeed == RoundTenth(Max(SpeedsWithKey(data, SensorKey, name)))
      && stats[i].minSpeed == RoundTenth(Min(SpeedsWithKey(data, SensorKey, name)))
  {
    var sensors, groups := GroupSpeeds(data, SensorKey);
    forall i | 0 <= i < |sensors|
      ensures |groups[sensors[i]].speeds| > 0
    {
      BucketNonEmpty(data, SensorKey, sensors[i]);
    }
    stats := seq(|sensors|, i requires 0 <= i < |sensors| => StatOf(sensors[i], groups[sensors[i]]));
  }

  /** The comparator `(a, b) => b.count - a.count`: `a` may come first when its count is not smaller. */
  predicate MoreActive(a: SensorStat, b: SensorStat)
  {
    a.count >= b.count
  }

  lemma MoreActiveTotal()
    ensures TotalPreorder(MoreActive)
  {
  }

  /** `sensorStats.sort(...).slice(0, 5)`. */
  function Top(stats: seq<SensorStat>): (r: seq<SensorStat>)
    ensures |r| == if |stats| < TopCount then |stats| else TopCount
    ensures r == SortBy(stats, MoreActive)[..|r|]
  {
    JsSlice(SortBy(stats, MoreActive), 0, TopCount)
  }

  /**
   * The list shown is ordered by count, most active first, every entry is
   * one of the sensors, and a sensor left out has no more readings than any
   * sensor shown.
   */
  lemma TopIsMostActive(stats: seq<SensorStat>)
    ensures SortedBy(Top(stats), MoreActive)
    ensures multiset(Top(stats)) <= multiset(stats)
    ensures forall x, y :: x in multiset(stats) - multiset(Top(stats)) && y in Top(stats) ==> x.count <= y.count
  {
    var sorted := SortBy(stats, MoreActive);
    var top := Top(stats);
    MoreActiveTotal();
    SortBySorted(stats, MoreActive);
    PrefixPrecedesRest(sorted, |top|, MoreActive);
  }

  /** What the card shows: a placeholder without data, otherwise the top list. */
  datatype TopView = NoData | Listed(top: seq<SensorStat>)

  method TopSensorsView(data: seq<Reading>) returns (view: TopView)
    ensures data == [] <==> view.NoData?
    ensures view.Listed? ==> view.top == Top(StatsBySensor(data))
    ensures view.Listed? ==> 0 < |view.top| <= TopCount && SortedBy(view.top, MoreActive)
  {
    var stats := SensorStats(data);
    var top := Top(stats);
    TopIsMostActive(stats);
    if data == [] {
      view := NoData;
    } else {
      assert data[0] in data;
      KeysOfMembership(data, SensorKey, SensorKey(data[0]));
      view := Listed(top);
    }
  }
}
