/**
 * The lane-performance bars: the readings split by lane, and for each lane
 * its rounded mean, its maximum and minimum speed and its count (all zero
 * for a lane without readings), shown in the order mean, maximum, minimum,
 * count.
 */
module LanePerformance {
  import opened Seqs
  import opened Stats
  import opened SpeedData
  import opened LaneDistribution

  datatype LaneStats = LaneStats(avg: real, max: real, min: real, count: nat)

  /** `calculateStats`: only the mean is rounded; the extremes are the raw speeds. */
  function CalculateStats(laneData: seq<Reading>): (r: LaneStats)
    ensures laneData == [] ==> r == LaneStats(0.0, 0.0, 0.0, 0)
    ensures laneData != [] ==>
      && r.count == |laneData|
      && r.max == Max(Speeds(laneData)) && r.min == Min(Speeds(laneData))
      && r.min <= r.max
      && r.avg == RoundTenth(Mean(Speeds(laneData)))
      && RoundTenth(r.min) <= r.avg <= RoundTenth(r.max)
  {
    if laneData == [] then LaneStats(0.0, 0.0, 0.0, 0) else
    var speeds := Speeds(laneData);
    MeanBounds(speeds);
    RoundTenthMonotone(Min(speeds), Mean(speeds));
    RoundTenthMonotone(Mean(speeds), Max(speeds));
    LaneStats(RoundTenth(Mean(speeds)), Max(speeds), Min(speeds), |laneData|)
  }

  /** `leftLaneData` and `rightLaneData`: no reading is in both, and together they hold them all. */
  lemma LanePartition(data: seq<Reading>)
    ensures |Filter(data, OnLeft)| + |Filter(data, OnRight)| == |data|
    ensures forall r :: r in Filter(data, OnLeft) ==> r !in Filter(data, OnRight)
    ensures forall r :: r in data ==> r in Filter(data, OnLeft) || r in Filter(data, OnRight)
  {
    FilterSplit(data, OnLeft, OnRight);
    forall r
      ensures r in Filter(data, OnLeft) <==> r in data && r.lane == Left
      ensures r in Filter(data, OnRight) <==> r in data && r.lane == Right
    {
      LaneCountsMembers(data, r);
    }
  }

  /** One bar series: `[avg, max, min, count]`. */
  function Series(s: LaneStats): (r: seq<real>)
    ensures |r| == 4 && r[0] == s.avg && r[1] == s.max && r[2] == s.min && r[3] == s.count as real
  {
    [s.avg, s.max, s.min, s.count as real]
  }

  datatype PerformanceView = NoData | Bars(left: seq<real>, right: seq<real>)

  /** What the card shows: the placeholder for no data, else the left and the right series. */
  function LanePerformanceView(data: seq<Reading>): (v: PerformanceView)
    ensures v.NoData? <==> data == []
    ensures v.Bars? ==> v.left == Series(CalculateStats(Filter(data, OnLeft)))
    ensures v.Bars? ==> v.right == Series(CalculateStats(Filter(data, OnRight)))
    ensures v.Bars? ==> |v.left| == 4 && |v.right| == 4 && v.left[3] + v.right[3] == |data| as real
  {
    if data == [] then PerformanceView.NoData else
    LanePartition(data);
    Bars(Series(CalculateStats(Filter(data, OnLeft))), Series(CalculateStats(Filter(data, OnRight))))
  }
}
