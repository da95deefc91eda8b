/**
 * The consistency panel: mean, median and variance of the speeds, how many
 * speeds fall in each of five ranges, and a verbal level chosen from the
 * coefficient of variation.
 */
module SpeedConsistency {
  import opened Seqs
  import opened Sorting
  import opened Stats
  import opened SpeedData

  const RangeLabels: seq<string> := ["0-50", "50-100", "100-150", "150-200", "200+"]

  /** The range a speed is counted in: the first bound it is below, or "200+". */
  function RangeOf(speed: real): (k: nat)
    ensures k < |RangeLabels|
    ensures k < 4 <==> speed < 200.0
    ensures k > 0 ==> speed >= (50 * k) as real
    ensures k < 4 ==> speed < (50 * k + 50) as real
  {
    if speed < 50.0 then 0
    else if speed < 100.0 then 1
    else if speed < 150.0 then 2
    else if speed < 200.0 then 3
    else 4
  }

  /** The result; `ranges` is empty for no data (the source's empty object). */
  datatype Consistency = Consistency(mean: real, median: real, variance: real, ranges: seq<nat>)

  /** How many of `speeds` fall in each range, in label order. */
  function RangeCounts(speeds: seq<real>): (r: seq<nat>)
    ensures |r| == |RangeLabels|
    ensures forall k: nat :: k < |r| ==> r[k] == CountKey(speeds, RangeOf, k)
  {
    seq(5, (k: int) requires 0 <= k < 5 => CountKey(speeds, RangeOf, k as nat))
  }

  /** `speeds.sort((a, b) => a - b)`. */
  function SortedSpeeds(data: seq<Reading>): (r: seq<real>)
    ensures |r| == |data|
    ensures multiset(r) == multiset(Speeds(data))
  {
    SortBy(Speeds(data), RealLe)
  }

  lemma SortedSpeedsAscending(data: seq<Reading>)
    ensures forall i, j :: 0 <= i < j < |data| ==> SortedSpeeds(data)[i] <= SortedSpeeds(data)[j]
  {
    NumericOrdersTotal();
    SortBySorted(Speeds(data), RealLe);
  }

  /**
   * `calculateConsistency` (without the standard deviation and the
   * coefficient of variation): zeros and no ranges for no data; otherwise the
   * rounded mean, the rounded element at index `floor(n / 2)` of the sorted
   * speeds, the rounded variance, and the five range counts.
   */
  method CalculateConsistency(data: seq<Reading>) returns (c: Consistency)
    ensures data == [] ==> c == Consistency(0.0, 0.0, 0.0, [])
    ensures data != [] ==> c.mean == RoundTenth(Mean(SortedSpeeds(data)))
    ensures data != [] ==> c.median == RoundTenth(SortedSpeeds(data)[|data| / 2])
    ensures data != [] ==> c.variance == RoundTenth(Variance(SortedSpeeds(data)))
    ensures data != [] ==> c.ranges == RangeCounts(SortedSpeeds(data))
  {
    if |data| == 0 {
      return Consistency(0.0, 0.0, 0.0, []);
    }
    var speeds := SortedSpeeds(data);
    var counts := new nat[5](_ => 0);
    var i := 0;
    while i < |speeds|
      invariant 0 <= i <= |speeds|
      invariant forall k: nat :: k < 5 ==> counts[k] == CountKey(speeds[..i], RangeOf, k)
    {
      PrefixSnoc(speeds, i);
      var k := RangeOf(speeds[i]);
      counts[k] := counts[k] + 1;
      i := i + 1;
    }
    assert speeds[..i] == speeds;
    var ranges := counts[..];
    assert ranges == RangeCounts(speeds);
    c := Consistency(RoundTenth(Mean(speeds)), RoundTenth(speeds[|speeds| / 2]), RoundTenth(Variance(speeds)), ranges);
  }

  function RangeKeys(): (r: seq<nat>)
    ensures r == [0, 1, 2, 3, 4]
  {
    [0, 1, 2, 3, 4]
  }

  /** Every speed is counted in exactly one range: the five counts add up to the number of readings. */
  lemma RangesCoverSpeeds(data: seq<Reading>)
    ensures SumCounts(SortedSpeeds(data), RangeOf, RangeKeys()) == |data|
  {
    var ks := RangeKeys();
    forall x | x in SortedSpeeds(data)
      ensures RangeOf(x) in ks
    {
      assert ks[RangeOf(x)] == RangeOf(x);
    }
    CoverSum(SortedSpeeds(data), RangeOf, ks);
  }

  /** The median and the mean lie between the smallest and the largest speed. */
  lemma CentralValuesBetween(data: seq<Reading>)
    requires data != []
    ensures Min(Speeds(data)) <= SortedSpeeds(data)[|data| / 2] <= Max(Speeds(data))
    ensures Min(SortedSpeeds(data)) <= Mean(SortedSpeeds(data)) <= Max(SortedSpeeds(data))
    ensures RoundTenth(Variance(SortedSpeeds(data))) >= 0.0
  {
    var m := SortedSpeeds(data)[|data| / 2];
    assert m in multiset(Speeds(data));
    MeanBounds(SortedSpeeds(data));
    VarianceNonNegative(SortedSpeeds(data));
    RoundTenthMonotone(0.0, Variance(SortedSpeeds(data)));
    RoundTenthOfTenths(0);
  }

  datatype Level = VeryConsistent | Consistent | Moderate | Variable

  function LevelLabel(l: Level): string
  {
    match l
    case VeryConsistent => "Très Consistant"
    case Consistent => "Consistant"
    case Moderate => "Modéré"
    case Variable => "Variable"
  }

  function Rank(l: Level): nat
  {
    match l
    case VeryConsistent => 0
    case Consistent => 1
    case Moderate => 2
    case Variable => 3
  }

  /** `getConsistencyLevel`: thresholds 10, 20 and 30 on the coefficient of variation. */
  function ConsistencyLevel(cv: real): (l: Level)
    ensures l == VeryConsistent <==> cv < 10.0
    ensures l == Consistent <==> 10.0 <= cv < 20.0
    ensures l == Moderate <==> 20.0 <= cv < 30.0
    ensures l == Variable <==> cv >= 30.0
  {
    if cv < 10.0 then VeryConsistent
    else if cv < 20.0 then Consistent
    else if cv < 30.0 then Moderate
    else Variable
  }

  /** A larger coefficient of variation never gives a more consistent level. */
  lemma LevelMonotone(cv1: real, cv2: real)
    requires cv1 <= cv2
    ensures Rank(ConsistencyLevel(cv1)) <= Rank(ConsistencyLevel(cv2))
  {
  }
}
