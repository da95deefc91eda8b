/**
 * The activity heat map: a sensor-by-hour matrix of reading counts. The
 * sensors are the distinct names (a missing name as "Unknown") in
 * first-appearance order, the hours the distinct "HH:00" labels sorted as
 * strings; every cell starts at zero, each reading increments its own cell,
 * and the matrix is flattened hour by hour into `[hourIdx, sensorIdx, count]`
 * cells whose largest count scales the colours.
 */
module ActivityHeatmap {
  import opened Wrappers
  import opened Seqs
  import opened Text
  import opened SpeedData
  import opened Grouping
  import opened HourlyTrend

  // ------------------------------------------------------------ the matrix

  /** `activityMap[sensor][hour]`, keyed by the pair. */
  type Matrix<S(==), H(==)> = map<(S, H), nat>

  /** The cell a reading falls in. */
  function PairKey(r: Reading): (string, string)
  {
    (SensorKey(r), HourKey(r))
  }

  /** `sensors.forEach(sensor => hours.forEach(hour => activityMap[sensor][hour] = 0))`. */
  method ZeroMatrix<S(==), H(==)>(sensors: seq<S>, hours: seq<H>) returns (activity: Matrix<S, H>)
    ensures forall p :: p in activity <==> p.0 in sensors && p.1 in hours
    ensures forall p :: p in activity ==> activity[p] == 0
  {
    activity := map[];
    var i := 0;
    while i < |sensors|
      invariant 0 <= i <= |sensors|
      invariant forall p :: p in activity <==> p.0 in sensors[..i] && p.1 in hours
      invariant forall p :: p in activity ==> activity[p] == 0
    {
      PrefixSnoc(sensors, i);
      var j := 0;
      while j < |hours|
        invariant 0 <= j <= |hours|
        invariant forall p :: p in activity <==> (p.0 in sensors[..i] && p.1 in hours) || (p.0 == sensors[i] && p.1 in hours[..j])
        invariant forall p :: p in activity ==> activity[p] == 0
      {
        assert hours[..j + 1] == hours[..j] + [hours[j]];
        activity := activity[(sensors[i], hours[j]) := 0];
        j := j + 1;
      }
      assert hours[..j] == hours;
      i := i + 1;
    }
    assert sensors[..i] == sensors;
  }

  /** `data.forEach(...)`: each reading whose cell exists adds one to it. */
  method FillMatrix<S(==), H(==)>(data: seq<Reading>, key: Reading -> (S, H), start: Matrix<S, H>) returns (activity: Matrix<S, H>)
    ensures activity.Keys == start.Keys
    ensures forall p :: p in activity ==> activity[p] == start[p] + CountKey(data, key, p)
  {
    activity := start;
    var i := 0;
    while i < |data|
      invariant 0 <= i <= |data|
      invariant activity.Keys == start.Keys
      invariant forall p :: p in activity ==> activity[p] == start[p] + CountKey(data[..i], key, p)
    {
      assert data[..i + 1][..i] == data[..i];
      var p := key(data[i]);
      if p in activity {
        activity := activity[p := activity[p] + 1];
      }
      i := i + 1;
    }
    assert data[..i] == data;
  }

  /** The guard `activityMap[sensor] && activityMap[sensor][hour] !== undefined` never skips a reading. */
  lemma GuardNeverSkips(data: seq<Reading>, r: Reading)
    requires r in data
    ensures PairKey(r).0 in KeysOf(data, SensorKey)
    ensures PairKey(r).1 in SortStrings(KeysOf(data, HourKey))
  {
    KeysOfMembership(data, SensorKey, SensorKey(r));
    KeysOfMembership(data, HourKey, HourKey(r));
  }

  // -------------------------------------------------------------- the grid

  /** The index pairs of one hour's row, sensor by sensor. */
  function Row(hi: nat, ns: nat): (r: seq<(nat, nat)>)
    ensures |r| == ns
    ensures forall si :: 0 <= si < ns ==> r[si] == (hi, si)
  {
    seq(ns, si requires 0 <= si < ns => (hi, si))
  }

  /** `hours.forEach((hour, hourIdx) => sensors.forEach((sensor, sensorIdx) => …))`: the visiting order, hour-major. */
  function IndexGrid(nh: nat, ns: nat): (r: seq<(nat, nat)>)
    ensures |r| == nh * ns
    ensures forall ix :: ix in r <==> ix.0 < nh && ix.1 < ns
  {
    if nh == 0 then [] else
    var prev := IndexGrid(nh - 1, ns);
    assert forall ix :: ix in Row(nh - 1, ns) <==> ix.0 == nh - 1 && ix.1 < ns by {
      forall ix: (nat, nat) | ix.0 == nh - 1 && ix.1 < ns
        ensures ix in Row(nh - 1, ns)
      {
        assert Row(nh - 1, ns)[ix.1] == ix;
      }
    }
    prev + Row(nh - 1, ns)
  }

  /** `a` is visited before `b`: an earlier hour, or the same hour and an earlier sensor. */
  predicate VisitedBefore(a: (nat, nat), b: (nat, nat))
  {
    a.0 < b.0 || (a.0 == b.0 && a.1 < b.1)
  }

  /** The grid lists the cells in strictly increasing hour-major order, so each exactly once. */
  lemma {:induction false} GridHourMajor(nh: nat, ns: nat)
    ensures forall i, j :: 0 <= i < j < |IndexGrid(nh, ns)| ==> VisitedBefore(IndexGrid(nh, ns)[i], IndexGrid(nh, ns)[j])
  {
    if nh > 0 {
      GridHourMajor(nh - 1, ns);
      var prev := IndexGrid(nh - 1, ns);
      var g := IndexGrid(nh, ns);
      assert g == prev + Row(nh - 1, ns);
      forall i, j | 0 <= i < j < |g|
        ensures VisitedBefore(g[i], g[j])
      {
        if j < |prev| {
          assert g[i] == prev[i] && g[j] == prev[j];
        } else if i < |prev| {
          assert g[i] == prev[i] && prev[i] in prev;
        }
      }
    }
  }

  // ------------------------------------------------------------- the cells

  /** `[hourIdx, sensorIdx, value]`. */
  datatype Cell = Cell(hourIdx: nat, sensorIdx: nat, value: nat)

  /** `activityMap[sensor][hour] || 0`. */
  function ValueAt<S(==), H(==)>(activity: Matrix<S, H>, sensor: S, hour: H): nat
  {
    if (sensor, hour) in activity then activity[(sensor, hour)] else 0
  }

  /** The cell pushed for an index pair. */
  function CellFor<S(==), H(==)>(activity: Matrix<S, H>, hours: seq<H>, sensors: seq<S>, ix: (nat, nat)): Cell
  {
    Cell(ix.0, ix.1, if ix.0 < |hours| && ix.1 < |sensors| then ValueAt(activity, sensors[ix.1], hours[ix.0]) else 0)
  }

  /** `heatmapData`: one cell per (hour, sensor), pushed hour by hour. */
  method Flatten<S(==), H(==)>(sensors: seq<S>, hours: seq<H>, activity: Matrix<S, H>) returns (cells: seq<Cell>)
    ensures |cells| == |IndexGrid(|hours|, |sensors|)|
    ensures forall k :: 0 <= k < |cells| ==> cells[k] == CellFor(activity, hours, sensors, IndexGrid(|hours|, |sensors|)[k])
  {
    var ns := |sensors|;
    cells := [];
    var hi := 0;
    while hi < |hours|
      invariant 0 <= hi <= |hours|
      invariant |cells| == |IndexGrid(hi, ns)|
      invariant forall k :: 0 <= k < |cells| ==> cells[k] == CellFor(activity, hours, sensors, IndexGrid(hi, ns)[k])
    {
      var si := 0;
      ghost var rowStart := |cells|;
      assert IndexGrid(hi + 1, ns) == IndexGrid(hi, ns) + Row(hi, ns);
      while si < ns
        invariant 0 <= si <= ns
        invariant |cells| == rowStart + si
        invariant forall k :: 0 <= k < |cells| ==> cells[k] == CellFor(activity, hours, sensors, IndexGrid(hi + 1, ns)[k])
      {
        cells := cells + [Cell(hi, si, ValueAt(activity, sensors[si], hours[hi]))];
        si := si + 1;
      }
      hi := hi + 1;
    }
  }

  /** `Math.max(...heatmapData.map(d => d[2]))`, with `None` for the `-Infinity` of an empty list. */
  function MaxValue(cells: seq<Cell>): (r: Option<nat>)
    ensures r.None? <==> cells == []
    ensures r.Some? ==> (exists k :: 0 <= k < |cells| && cells[k].value == r.value)
    ensures r.Some? ==> forall k :: 0 <= k < |cells| ==> cells[k].value <= r.value
  {
    if cells == [] then None else
    var init := cells[..|cells| - 1];
    var last := cells[|cells| - 1].value;
    match MaxValue(init)
    case None => Some(last)
    case Some(m) =>
      assert forall k :: 0 <= k < |init| ==> cells[k] == init[k];
      Some(if last > m then last else m)
  }

  // ------------------------------------------------------- every reading once

  /** The sum of the cells' counts. */
  function SumValues(cells: seq<Cell>): nat
  {
    if cells == [] then 0 else SumValues(cells[..|cells| - 1]) + cells[|cells| - 1].value
  }

  /** Cells whose values are the counts of a list of keys add up like those counts. */
  lemma {:induction false} SumValuesIsSumCounts<K>(data: seq<Reading>, key: Reading -> K, cells: seq<Cell>, ks: seq<K>)
    requires |cells| == |ks|
    requires forall k :: 0 <= k < |cells| ==> cells[k].value == CountKey(data, key, ks[k])
    ensures SumValues(cells) == SumCounts(data, key, ks)
  {
    if cells != [] {
      SumValuesIsSumCounts(data, key, cells[..|cells| - 1], ks[..|ks| - 1]);
    }
  }

  /** The (sensor, hour) pair of an index pair. */
  function PairAt<S, H>(sensors: seq<S>, hours: seq<H>, ix: (nat, nat), dflt: (S, H)): (S, H)
  {
    if ix.0 < |hours| && ix.1 < |sensors| then (sensors[ix.1], hours[ix.0]) else dflt
  }

  /** The (sensor, hour) pairs in visiting order. */
  function GridPairs<S, H>(sensors: seq<S>, hours: seq<H>, dflt: (S, H)): (r: seq<(S, H)>)
    ensures |r| == |IndexGrid(|hours|, |sensors|)|
    ensures forall k :: 0 <= k < |r| ==> r[k] == PairAt(sensors, hours, IndexGrid(|hours|, |sensors|)[k], dflt)
  {
    var grid := IndexGrid(|hours|, |sensors|);
    seq(|grid|, k requires 0 <= k < |grid| => PairAt(sensors, hours, grid[k], dflt))
  }

  /** Distinct sensors and distinct hours give distinct pairs. */
  lemma GridPairsDistinct<S, H>(sensors: seq<S>, hours: seq<H>, dflt: (S, H))
    requires NoDuplicates(sensors) && NoDuplicates(hours)
    ensures NoDuplicates(GridPairs(sensors, hours, dflt))
  {
    var grid := IndexGrid(|hours|, |sensors|);
    var pairs := GridPairs(sensors, hours, dflt);
    GridHourMajor(|hours|, |sensors|);
    forall i, j | 0 <= i < j < |pairs|
      ensures pairs[i] != pairs[j]
    {
      assert grid[i] in grid && grid[j] in grid;
      assert VisitedBefore(grid[i], grid[j]);
    }
  }

  /** Every pair of a listed sensor and a listed hour is in the grid. */
  lemma GridPairsComplete<S, H>(sensors: seq<S>, hours: seq<H>, dflt: (S, H), p: (S, H))
    requires p.0 in sensors && p.1 in hours
    ensures p in GridPairs(sensors, hours, dflt)
  {
    var grid := IndexGrid(|hours|, |sensors|);
    var si :| 0 <= si < |sensors| && sensors[si] == p.0;
    var hi :| 0 <= hi < |hours| && hours[hi] == p.1;
    assert (hi, si) in grid;
    var k :| 0 <= k < |grid| && grid[k] == (hi, si);
    assert GridPairs(sensors, hours, dflt)[k] == p;
  }

  /**
   * With distinct sensors and hours, and every reading's pair among them,
   * the flattened cells count each reading exactly once.
   */
  lemma GridCoversData<S, H>(data: seq<Reading>, key: Reading -> (S, H), sensors: seq<S>, hours: seq<H>, cells: seq<Cell>, dflt: (S, H))
    requires NoDuplicates(sensors) && NoDuplicates(hours)
    requires forall r :: r in data ==> key(r).0 in sensors && key(r).1 in hours
    requires |cells| == |IndexGrid(|hours|, |sensors|)|
    requires forall k :: 0 <= k < |cells| ==>
      cells[k].value == CountKey(data, key, PairAt(sensors, hours, IndexGrid(|hours|, |sensors|)[k], dflt))
    ensures SumValues(cells) == |data|
  {
    var pairs := GridPairs(sensors, hours, dflt);
    SumValuesIsSumCounts(data, key, cells, pairs);
    GridPairsDistinct(sensors, hours, dflt);
    forall r | r in data
      ensures key(r) in pairs
    {
      GridPairsComplete(sensors, hours, dflt, key(r));
    }
    CoverSum(data, key, pairs);
  }

  /**
   * The matrix steps for any keys: zero every (sensor, hour) cell, count the
   * readings into it, flatten hour by hour. With distinct keys covering
   * every reading, each reading is counted in exactly one cell.
   */
  method CountCells<S(==), H(==)>(data: seq<Reading>, key: Reading -> (S, H), sensors: seq<S>, hours: seq<H>) returns (cells: seq<Cell>)
    requires NoDuplicates(sensors) && NoDuplicates(hours)
    requires forall r :: r in data ==> key(r).0 in sensors && key(r).1 in hours
    ensures |cells| == |hours| * |sensors|
    ensures forall k :: 0 <= k < |cells| ==>
      var ix := IndexGrid(|hours|, |sensors|)[k];
      && ix.0 < |hours| && ix.1 < |sensors|
      && cells[k] == Cell(ix.0, ix.1, CountKey(data, key, (sensors[ix.1], hours[ix.0])))
    ensures SumValues(cells) == |data|
  {
    var activity := ZeroMatrix(sensors, hours);
    activity := FillMatrix(data, key, activity);
    cells := Flatten(sensors, hours, activity);
    var grid := IndexGrid(|hours|, |sensors|);
    forall k | 0 <= k < |cells|
      ensures grid[k].0 < |hours| && grid[k].1 < |sensors|
      ensures cells[k].value == CountKey(data, key, (sensors[grid[k].1], hours[grid[k].0]))
    {
      assert grid[k] in grid;
    }
    if |sensors| > 0 && |hours| > 0 {
      GridCoversData(data, key, sensors, hours, cells, (sensors[0], hours[0]));
    } else {
      NoKeysNoData(data, key, sensors, hours);
    }
  }

  /** Without a sensor or without an hour no reading can have a cell, so there is none. */
  lemma NoKeysNoData<S, H>(data: seq<Reading>, key: Reading -> (S, H), sensors: seq<S>, hours: seq<H>)
    requires forall r :: r in data ==> key(r).0 in sensors && key(r).1 in hours
    ensures |sensors| == 0 || |hours| == 0 ==> data == []
  {
    if data != [] {
      assert data[0] in data;
    }
  }

  // ------------------------------------------------------------ the widget

  /** `processedData`: the sensors, the sorted hours, the flattened cells and their largest count. */
  method ActivityHeatmap(data: seq<Reading>) returns (sensors: seq<string>, hours: seq<string>, cells: seq<Cell>, maxValue: Option<nat>)
    ensures sensors == KeysOf(data, SensorKey)
    ensures hours == SortStrings(KeysOf(data, HourKey))
    ensures NoDuplicates(sensors) && NoDuplicates(hours)
    ensures forall i, j :: 0 <= i < j < |hours| ==> StrCompare(hours[i], hours[j]) < 0
    ensures |cells| == |hours| * |sensors|
    ensures forall k :: 0 <= k < |cells| ==>
      var ix := IndexGrid(|hours|, |sensors|)[k];
      && ix.0 < |hours| && ix.1 < |sensors|
      && cells[k] == Cell(ix.0, ix.1, CountKey(data, PairKey, (sensors[ix.1], hours[ix.0])))
    ensures SumValues(cells) == |data|
    ensures maxValue == MaxValue(cells)
    ensures data == [] ==> cells == [] && maxValue.None?
  {
    sensors := Distinct(Map(data, SensorKey));
    hours := SortStrings(Distinct(Map(data, HourKey)));
    forall r | r in data
      ensures PairKey(r).0 in sensors && PairKey(r).1 in hours
    {
      GuardNeverSkips(data, r);
    }
    cells := CountCells(data, PairKey, sensors, hours);
    maxValue := MaxValue(cells);
  }
}
