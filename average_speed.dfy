/**
 * The average-speed-by-sensor chart: a running total and count per sensor
 * (a missing name accumulating under "Unknown"), then each sensor's rounded
 * `total / count`, in first-appearance order.
 */
module AverageSpeed {
  import opened Seqs
  import opened Stats
  import opened SpeedData
  import opened Grouping

  datatype Totals = Totals(total: real, count: nat)

  /** `data.reduce(...)`: the sensors in first-appearance order and each one's running total and count. */
  method AccumulateTotals<K(==,!new)>(data: seq<Reading>, key: Reading -> K) returns (sensorNames: seq<K>, stats: map<K, Totals>)
    ensures sensorNames == KeysOf(data, key)
    ensures forall k :: k in stats <==> k in sensorNames
    ensures forall k :: k in stats ==> stats[k] == Totals(Sum(SpeedsWithKey(data, key, k)), CountKey(data, key, k))
  {
    stats := map[];
    sensorNames := [];
    var i := 0;
    while i < |data|
      invariant 0 <= i <= |data|
      invariant sensorNames == KeysOf(data[..i], key)
      invariant forall k :: k in stats <==> k in sensorNames
      invariant forall k :: k in stats ==> stats[k] == Totals(Sum(SpeedsWithKey(data[..i], key, k)), CountKey(data[..i], key, k))
    {
      PrefixSnoc(data, i);
      KeysStep(data[..i], data[i], key, sensorNames, stats, AddReading(stats, data[i], key));
      TotalsStep(data[..i], data[i], key, stats);
      sensorNames := if key(data[i]) in stats then sensorNames else sensorNames + [key(data[i])];
      stats := AddReading(stats, data[i], key);
      i := i + 1;
    }
    assert data[..i] == data;
  }

  /** The reduce callback on the totals: the reading's sensor starts at zero if absent, then gains its speed and one more count. */
  function AddReading<K>(stats: map<K, Totals>, x: Reading, key: Reading -> K): (r: map<K, Totals>)
    ensures r.Keys == stats.Keys + {key(x)}
    ensures r[key(x)].count >= 1
    ensures forall k :: k in stats && k != key(x) ==> r[k] == stats[k]
    ensures key(x) in stats ==> r[key(x)].total == stats[key(x)].total + x.speed && r[key(x)].count == stats[key(x)].count + 1
    ensures key(x) !in stats ==> r[key(x)].total == x.speed && r[key(x)].count == 1
  {
    var current := if key(x) in stats then stats[key(x)] else Totals(0.0, 0);
    stats[key(x) := Totals(current.total + x.speed, current.count + 1)]
  }

  /** The totals after one step are the totals of the longer prefix. */
  lemma TotalsStep<K(!new)>(prefix: seq<Reading>, x: Reading, key: Reading -> K, stats: map<K, Totals>)
    requires forall k :: k in stats <==> k in KeysOf(prefix, key)
    requires forall k :: k in stats ==> stats[k] == Totals(Sum(SpeedsWithKey(prefix, key, k)), CountKey(prefix, key, k))
    ensures forall k :: k in AddReading(stats, x, key) ==>
      AddReading(stats, x, key)[k] == Totals(Sum(SpeedsWithKey(prefix + [x], key, k)), CountKey(prefix + [x], key, k))
  {
    if key(x) !in stats {
      KeysOfMembership(prefix, key, key(x));
      ZeroWithoutKey(prefix, key, key(x));
    }
    var after := AddReading(stats, x, key);
    forall k | k in after
      ensures after[k] == Totals(Sum(SpeedsWithKey(prefix + [x], key, k)), CountKey(prefix + [x], key, k))
    {
      TotalsSnoc(prefix, x, key, k);
    }
  }

  /** `processedData`: the sensor names and their rounded `total / count`. */
  method AverageSpeedBySensor(data: seq<Reading>) returns (sensorNames: seq<string>, averageSpeeds: seq<real>)
    ensures sensorNames == KeysOf(data, SensorKey)
    ensures |averageSpeeds| == |sensorNames|
    ensures forall i :: 0 <= i < |sensorNames| ==>
      |SpeedsWithKey(data, SensorKey, sensorNames[i])| > 0 &&
      averageSpeeds[i] == RoundTenth(Mean(SpeedsWithKey(data, SensorKey, sensorNames[i])))
  {
    var stats;
    sensorNames, stats := AccumulateTotals(data, SensorKey);
    forall j | 0 <= j < |sensorNames|
      ensures |SpeedsWithKey(data, SensorKey, sensorNames[j])| > 0
      ensures stats[sensorNames[j]].count > 0
      ensures stats[sensorNames[j]].total / stats[sensorNames[j]].count as real == Mean(SpeedsWithKey(data, SensorKey, sensorNames[j]))
    {
      BucketNonEmpty(data, SensorKey, sensorNames[j]);
    }
    averageSpeeds := seq(|sensorNames|, j requires 0 <= j < |sensorNames| =>
      RoundTenth(stats[sensorNames[j]].total / stats[sensorNames[j]].count as real));
  }

  /** Appending a reading adds its speed to its own sensor's total only. */
  lemma TotalsSnoc<K>(prefix: seq<Reading>, x: Reading, key: Reading -> K, k: K)
    ensures Sum(SpeedsWithKey(prefix + [x], key, k)) == Sum(SpeedsWithKey(prefix, key, k)) + if key(x) == k then x.speed else 0.0
    ensures CountKey(prefix + [x], key, k) == CountKey(prefix, key, k) + if key(x) == k then 1 else 0
  {
    BucketSnoc(prefix, x, key, k);
    var before := SpeedsWithKey(prefix, key, k);
    if key(x) == k {
      assert (before + [x.speed])[..|before|] == before;
    }
  }

  /** The per-sensor counts add up to the number of readings. */
  lemma CountsAddUp(data: seq<Reading>)
    ensures SumCounts(data, SensorKey, KeysOf(data, SensorKey)) == |data|
  {
    CountsCoverData(data, SensorKey);
  }
}
