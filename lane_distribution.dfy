/**
 * The lane-distribution pie: how many readings were taken on each lane,
 * left then right, or a placeholder when there is no reading.
 */
module LaneDistribution {
  import opened Seqs
  import opened SpeedData

  predicate OnLeft(r: Reading)
  {
    r.lane == Left
  }

  predicate OnRight(r: Reading)
  {
    r.lane == Right
  }

  /** One slice of the pie: its value and its legend. */
  datatype PieSlice = PieSlice(value: nat, name: string)

  /** `leftCount` and `rightCount`: the sizes of the two lane filters, which together count every reading. */
  function LaneCounts(data: seq<Reading>): (r: (nat, nat))
    ensures r.0 + r.1 == |data|
    ensures r.0 == |Filter(data, OnLeft)| && r.1 == |Filter(data, OnRight)|
  {
    FilterSplit(data, OnLeft, OnRight);
    (|Filter(data, OnLeft)|, |Filter(data, OnRight)|)
  }

  /** The left count holds exactly the left-lane readings, the right count the right-lane ones. */
  lemma LaneCountsMembers(data: seq<Reading>, r: Reading)
    ensures r in Filter(data, OnLeft) <==> r in data && r.lane == Left
    ensures r in Filter(data, OnRight) <==> r in data && r.lane == Right
  {
    FilterMembership(data, OnLeft, r);
    FilterMembership(data, OnRight, r);
  }

  /** A window on one lane only leaves the other slice empty. */
  lemma {:induction false} OneLaneOnly(data: seq<Reading>)
    requires forall i :: 0 <= i < |data| ==> data[i].lane == Left
    ensures LaneCounts(data) == (|data|, 0)
  {
    FilterTrue(data, OnLeft);
    FilterFalse(data, OnRight);
  }

  datatype LaneView = NoData | Pie(slices: seq<PieSlice>)

  /** What the card shows: the placeholder for no data, else the two slices, left first. */
  function LaneDistributionView(data: seq<Reading>): (v: LaneView)
    ensures v.NoData? <==> data == []
    ensures v.Pie? ==>
      && |v.slices| == 2
      && v.slices[0].name == "Voie gauche" && v.slices[1].name == "Voie droite"
      && v.slices[0].value == LaneCounts(data).0 && v.slices[1].value == LaneCounts(data).1
      && v.slices[0].value + v.slices[1].value == |data|
  {
    if data == [] then NoData else
    var counts := LaneCounts(data);
    Pie([PieSlice(counts.0, "Voie gauche"), PieSlice(counts.1, "Voie droite")])
  }
}
