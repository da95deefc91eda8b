/**
 * The hourly-trend chart: readings are grouped by the "HH:00" label of their
 * hour of day, the labels are sorted as strings, and each label gets its
 * rounded mean speed and its count.
 */
module HourlyTrend {
  import opened Seqs
  import opened Text
  import opened Stats
  import opened SpeedData
  import opened Grouping

  /** date-fns `format(date, "HH:00")`: the two-digit hour and ":00". */
  function HourLabel(h: int): (r: string)
    requires 0 <= h < 24
    ensures |r| == 5 && r[2..] == ":00"
  {
    [DigitChar(h / 10), DigitChar(h % 10)] + ":00"
  }

  /** The grouping key of a reading. */
  function HourKey(r: Reading): string
  {
    HourLabel(HourOf(r.createdAt))
  }

  /** Sorting the labels as strings sorts the hours numerically: the zero padding makes the two orders agree. */
  lemma HourLabelOrder(a: int, b: int)
    requires 0 <= a < 24 && 0 <= b < 24
    ensures StrCompare(HourLabel(a), HourLabel(b)) < 0 <==> a < b
    ensures HourLabel(a) == HourLabel(b) <==> a == b
  {
    var la, lb := HourLabel(a), HourLabel(b);
    assert la[0] == DigitChar(a / 10) && lb[0] == DigitChar(b / 10);
    assert la[1..][0] == DigitChar(a % 10) && lb[1..][0] == DigitChar(b % 10);
    assert la[1..][1..] == ":00" == lb[1..][1..];
    StrCompareZero(la[1..][1..], lb[1..][1..]);
    StrCompareZero(la, lb);
  }

  /** `processedData`: the sorted hour labels, each with its rounded mean speed and its count. */
  method HourlyTrend(data: seq<Reading>) returns (hours: seq<string>, avgSpeeds: seq<real>, counts: seq<nat>)
    ensures hours == SortStrings(KeysOf(data, HourKey))
    ensures forall h :: h in hours <==> exists i :: 0 <= i < |data| && HourKey(data[i]) == h
    ensures forall i, j :: 0 <= i < j < |hours| ==> StrCompare(hours[i], hours[j]) < 0
    ensures |avgSpeeds| == |hours| && |counts| == |hours|
    ensures forall i :: 0 <= i < |hours| ==>
      && counts[i] == CountKey(data, HourKey, hours[i])
      && |SpeedsWithKey(data, HourKey, hours[i])| > 0
      && avgSpeeds[i] == RoundTenth(Mean(SpeedsWithKey(data, HourKey, hours[i])))
  {
    var keys, groups := GroupSpeeds(data, HourKey);
    hours := SortStrings(keys);
    forall h
      ensures h in hours <==> exists i :: 0 <= i < |data| && HourKey(data[i]) == h
    {
      KeysOfMembership(data, HourKey, h);
    }
    avgSpeeds, counts := BucketAverages(data, HourKey, hours, groups);
  }

  /** The counts of the chart's hours add up to the number of readings. */
  lemma HourlyCountsCover(data: seq<Reading>)
    ensures SumCounts(data, HourKey, SortStrings(KeysOf(data, HourKey))) == |data|
  {
    var hours := SortStrings(KeysOf(data, HourKey));
    forall x | x in data
      ensures HourKey(x) in hours
    {
      KeysOfMembership(data, HourKey, HourKey(x));
    }
    CoverSum(data, HourKey, hours);
  }

  /** Readings a whole number of days apart share a bucket: the chart folds all days onto one. */
  lemma DaysFoldTogether(r: Reading, days: int)
    ensures HourKey(r.(createdAt := r.createdAt + days * 24 * MillisPerHour)) == HourKey(r)
  {
    var t := r.createdAt;
    var q := t / MillisPerHour;
    assert t + days * 24 * MillisPerHour == (q + days * 24) * MillisPerHour + t % MillisPerHour;
    assert (t + days * 24 * MillisPerHour) / MillisPerHour == q + days * 24;
    assert (q + days * 24) % 24 == q % 24;
  }
}
