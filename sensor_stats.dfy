/**
 * The per-sensor bar chart: for each sensor (a missing name grouped as
 * "Unknown"), in first-appearance order, its rounded mean speed and its
 * number of readings.
 */
module SensorStats {
  import opened Seqs
  import opened Stats
  import opened SpeedData
  import opened Grouping

  /** `processedData`: aligned sensor names, rounded averages and counts. */
  method SensorStatsOf(data: seq<Reading>) returns (sensors: seq<string>, avgSpeeds: seq<real>, counts: seq<nat>)
    ensures sensors == KeysOf(data, SensorKey)
    ensures |avgSpeeds| == |counts| == |sensors|
    ensures forall i :: 0 <= i < |sensors| ==> counts[i] == CountKey(data, SensorKey, sensors[i])
    ensures forall i :: 0 <= i < |sensors| ==>
      |SpeedsWithKey(data, SensorKey, sensors[i])| > 0 &&
      avgSpeeds[i] == RoundTenth(Mean(SpeedsWithKey(data, SensorKey, sensors[i])))
  {
    var groups;
    sensors, groups := GroupSpeeds(data, SensorKey);
    avgSpeeds, counts := BucketAverages(data, SensorKey, sensors, groups);
  }

  /** The sensor counts add up to the number of readings, and each average lies between that sensor's extremes. */
  lemma SensorStatsProperties(data: seq<Reading>, s: string)
    requires s in KeysOf(data, SensorKey)
    ensures SumCounts(data, SensorKey, KeysOf(data, SensorKey)) == |data|
    ensures |SpeedsWithKey(data, SensorKey, s)| > 0
    ensures RoundTenth(Min(SpeedsWithKey(data, SensorKey, s))) <= RoundTenth(Mean(SpeedsWithKey(data, SensorKey, s)))
    ensures RoundTenth(Mean(SpeedsWithKey(data, SensorKey, s))) <= RoundTenth(Max(SpeedsWithKey(data, SensorKey, s)))
  {
    CountsCoverData(data, SensorKey);
    BucketMeanBetween(data, SensorKey, s);
    var speeds := SpeedsWithKey(data, SensorKey, s);
    RoundTenthMonotone(Min(speeds), Mean(speeds));
    RoundTenthMonotone(Mean(speeds), Max(speeds));
  }

  /** Readings without a sensor name are counted under "Unknown". */
  lemma UnnamedCountedAsUnknown(data: seq<Reading>, i: nat)
    requires i < |data| && data[i].sensorName.None?
    ensures "Unknown" in KeysOf(data, SensorKey)
    ensures CountKey(data, SensorKey, "Unknown") > 0
  {
    KeysOfMembership(data, SensorKey, "Unknown");
    CountKeyPositive(data, SensorKey, "Unknown");
    assert data[i] in data;
  }
}
