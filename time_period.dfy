/**
 * The time-period analysis card: readings are grouped by the period of the
 * day their hour falls in, each of the four fixed periods gets its rounded
 * mean and maximum speed and its count (zeros when it has no reading), and
 * the most active period is the first one with the largest count.
 */
module TimePeriod {
  import opened Wrappers
  import opened Seqs
  import opened Stats
  import opened SpeedData
  import opened Grouping

  datatype Period = Morning | Afternoon | Evening | Night

  function PeriodLabel(p: Period): string
  {
    match p
    case Morning => "Matin (6h-12h)"
    case Afternoon => "Après-midi (12h-18h)"
    case Evening => "Soirée (18h-22h)"
    case Night => "Nuit (22h-6h)"
  }

  /** `getTimePeriod`: three half-open daytime ranges, everything else is night. */
  function PeriodOf(hour: int): (p: Period)
    ensures p == Morning <==> 6 <= hour < 12
    ensures p == Afternoon <==> 12 <= hour < 18
    ensures p == Evening <==> 18 <= hour < 22
    ensures p == Night <==> hour < 6 || 22 <= hour
  {
    if 6 <= hour < 12 then Morning
    else if 12 <= hour < 18 then Afternoon
    else if 18 <= hour < 22 then Evening
    else Night
  }

  /** The grouping key: the period of the reading's hour of day. */
  function PeriodKey(r: Reading): Period
  {
    PeriodOf(HourOf(r.createdAt))
  }

  /** The chart's fixed category order. */
  const Periods: seq<Period> := [Morning, Afternoon, Evening, Night]

  datatype PeriodStat = PeriodStat(period: Period, avgSpeed: real, maxSpeed: real, count: nat)

  /** One entry of `periodStats`: zeros for a period without readings, otherwise the rounded mean and maximum. */
  function PeriodStatOf(p: Period, bucket: Option<Bucket>): (r: PeriodStat)
    ensures r.period == p
    ensures bucket.None? || |bucket.value.speeds| == 0 ==> r == PeriodStat(p, 0.0, 0.0, 0)
    ensures bucket.Some? && |bucket.value.speeds| > 0 ==>
      && r.count == bucket.value.count
      && r.avgSpeed == RoundTenth(Mean(bucket.value.speeds))
      && r.maxSpeed == RoundTenth(Max(bucket.value.speeds))
      && r.avgSpeed <= r.maxSpeed
  {
    if bucket.None? || |bucket.value.speeds| == 0 then PeriodStat(p, 0.0, 0.0, 0)
    else
      var speeds := bucket.value.speeds;
      MeanBounds(speeds);
      RoundTenthMonotone(Mean(speeds), Max(speeds));
      PeriodStat(p, RoundTenth(Mean(speeds)), RoundTenth(Max(speeds)), bucket.value.count)
  }

  /** `periodStats`: the four periods in order, with their readings' statistics. */
  method PeriodStats(data: seq<Reading>) returns (stats: seq<PeriodStat>)
    ensures |stats| == |Periods|
    ensures forall i :: 0 <= i < |Periods| ==>
      stats[i].period == Periods[i] && stats[i].count == CountKey(data, PeriodKey, Periods[i])
    ensures forall i :: 0 <= i < |Periods| && CountKey(data, PeriodKey, Periods[i]) == 0 ==>
      stats[i] == PeriodStat(Periods[i], 0.0, 0.0, 0)
    ensures forall i :: 0 <= i < |Periods| && |SpeedsWithKey(data, PeriodKey, Periods[i])| > 0 ==>
      stats[i].avgSpeed == RoundTenth(Mean(SpeedsWithKey(data, PeriodKey, Periods[i]))) &&
      stats[i].maxSpeed == RoundTenth(Max(SpeedsWithKey(data, PeriodKey, Periods[i])))
    ensures stats[0].count + stats[1].count + stats[2].count + stats[3].count == |data|
  {
    var keys, groups := GroupSpeeds(data, PeriodKey);
    var buckets := LookupBuckets(data, PeriodKey, Periods, groups);
    stats := seq(|Periods|, i requires 0 <= i < |Periods| => PeriodStatOf(Periods[i], buckets[i]));
    PeriodCountsCover(data);
  }

  /** Every reading falls in exactly one of the four periods. */
  lemma PeriodCountsCover(data: seq<Reading>)
    ensures CountKey(data, PeriodKey, Morning) + CountKey(data, PeriodKey, Afternoon)
      + CountKey(data, PeriodKey, Evening) + CountKey(data, PeriodKey, Night) == |data|
  {
    assert NoDuplicates(Periods) by {
      assert forall i, j :: 0 <= i < j < |Periods| ==> Periods[i] != Periods[j];
    }
    CoverSum(data, PeriodKey, Periods);
    assert Periods[..3] == [Morning, Afternoon, Evening];
    assert Periods[..2] == [Morning, Afternoon];
    assert Periods[..1] == [Morning];
    assert Periods[..0] == [];
  }

  /** `periodStats.reduce((max, current) => current.count > max.count ? current : max)`. */
  function MostActive(stats: seq<PeriodStat>): (r: PeriodStat)
    requires |stats| > 0
    ensures r in stats
    ensures forall i :: 0 <= i < |stats| ==> stats[i].count <= r.count
    ensures exists i :: 0 <= i < |stats| && stats[i] == r && forall j :: 0 <= j < i ==> stats[j].count < r.count
  {
    if |stats| == 1 then stats[0]
    else
      var init := stats[..|stats| - 1];
      var best := MostActive(init);
      var last := stats[|stats| - 1];
      if last.count > best.count then
        assert forall j :: 0 <= j < |init| ==> stats[j] == init[j];
        last
      else
        var i :| 0 <= i < |init| && init[i] == best && forall j :: 0 <= j < i ==> init[j].count < best.count;
        assert stats[i] == best;
        best
  }

  /** What the card shows: a placeholder without data, otherwise the chart and the most active period. */
  datatype PeriodView = NoData | Chart(stats: seq<PeriodStat>, mostActive: PeriodStat)

  method TimePeriodAnalysis(data: seq<Reading>) returns (view: PeriodView)
    ensures data == [] <==> view.NoData?
    ensures view.Chart? ==>
      && |view.stats| == |Periods|
      && view.mostActive in view.stats
      && (forall i :: 0 <= i < |view.stats| ==> view.stats[i].count <= view.mostActive.count)
    ensures view.Chart? ==> view.mostActive.count > 0
    ensures view.Chart? ==> view.mostActive == MostActive(view.stats)
    ensures view.Chart? ==> forall i :: 0 <= i < |Periods| ==>
      view.stats[i].period == Periods[i] && view.stats[i].count == CountKey(data, PeriodKey, Periods[i])
    ensures view.Chart? ==> forall i :: 0 <= i < |Periods| && |SpeedsWithKey(data, PeriodKey, Periods[i])| > 0 ==>
      view.stats[i].avgSpeed == RoundTenth(Mean(SpeedsWithKey(data, PeriodKey, Periods[i]))) &&
      view.stats[i].maxSpeed == RoundTenth(Max(SpeedsWithKey(data, PeriodKey, Periods[i])))
    ensures view.Chart? ==> forall i :: 0 <= i < |Periods| && CountKey(data, PeriodKey, Periods[i]) == 0 ==>
      view.stats[i] == PeriodStat(Periods[i], 0.0, 0.0, 0)
  {
    var stats := PeriodStats(data);
    if data == [] {
      view := NoData;
    } else {
      var best := MostActive(stats);
      view := Chart(stats, best);
    }
  }
}
