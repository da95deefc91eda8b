/**
 * The speed histogram: sixteen 25 km/h bins from 0 to 400, labelled
 * "0-25" … "375-400" in ascending order, each counting the readings whose
 * speed falls in it; speeds outside [0, 400) have no bin and are dropped.
 */
module SpeedDistribution {
  import opened Wrappers
  import opened Seqs
  import opened Text
  import opened SpeedData

  const BinSize: nat := 25
  const BinCount: nat := 16   // (400 - 0) / 25

  /** `${i}-${i + binSize}` for the bin starting at `i = 25 * b`. */
  function BinLabel(b: nat): string
  {
    NatToString(BinSize * b) + "-" + NatToString(BinSize * b + BinSize)
  }

  /**
   * The bin a speed lands in: `Math.floor(speed / 25) * 25` names an
   * existing bin exactly when the speed is in [0, 400).
   */
  function BinOf(speed: real): (r: Option<nat>)
    ensures r.Some? <==> 0.0 <= speed < 400.0
    ensures r.Some? ==> r.value < BinCount
    ensures r.Some? ==> (BinSize * r.value) as real <= speed < (BinSize * r.value + BinSize) as real
  {
    var q := (speed / 25.0).Floor;
    if 0 <= q < 16 then
      assert q as real <= speed / 25.0 < q as real + 1.0;
      Some(q)
    else None
  }

  function BinKey(r: Reading): Option<nat>
  {
    BinOf(r.speed)
  }

  /** How many readings land in bin `b`. */
  function BinTotal(data: seq<Reading>, b: nat): nat
  {
    CountKey(data, BinKey, Some(b))
  }

  /** How many readings have no bin. */
  function Dropped(data: seq<Reading>): nat
  {
    CountKey(data, BinKey, None)
  }

  function BinKeys(n: nat): (r: seq<Option<nat>>)
    ensures |r| == n
    ensures forall b :: 0 <= b < n ==> r[b] == Some(b)
  {
    seq(n, b requires 0 <= b < n => Some(b))
  }

  /**
   * `processedData`: the labels and counts of the sixteen bins, in
   * ascending order.
   */
  method Distribution(data: seq<Reading>) returns (labels: seq<string>, values: seq<nat>)
    ensures |labels| == |values| == BinCount
    ensures forall b :: 0 <= b < BinCount ==> labels[b] == BinLabel(b)
    ensures forall b :: 0 <= b < BinCount ==> values[b] == BinTotal(data, b)
  {
    var bins := new nat[BinCount];
    labels := [];
    var b := 0;
    while b < BinCount
      invariant 0 <= b <= BinCount
      invariant |labels| == b
      invariant forall c :: 0 <= c < b ==> labels[c] == BinLabel(c) && bins[c] == 0
    {
      labels := labels + [BinLabel(b)];
      bins[b] := 0;
      b := b + 1;
    }
    var i := 0;
    while i < |data|
      invariant 0 <= i <= |data|
      invariant forall c :: 0 <= c < BinCount ==> bins[c] == BinTotal(data[..i], c)
    {
      PrefixSnoc(data, i);
      var k := BinOf(data[i].speed);
      if k.Some? {
        bins[k.value] := bins[k.value] + 1;
      }
      i := i + 1;
    }
    assert data[..i] == data;
    values := bins[..];
  }

  /** Every reading is either counted in exactly one bin or dropped. */
  lemma BinsCoverData(data: seq<Reading>)
    ensures SumCounts(data, BinKey, BinKeys(BinCount)) + Dropped(data) == |data|
  {
    var ks := [None] + BinKeys(BinCount);
    forall i, j | 0 <= i < j < |ks|
      ensures ks[i] != ks[j]
    {
      if i > 0 {
        assert ks[i] == Some(i - 1) && ks[j] == Some(j - 1);
      }
    }
    forall x | x in data
      ensures BinKey(x) in ks
    {
      if BinKey(x).Some? {
        assert ks[BinKey(x).value + 1] == BinKey(x);
      }
    }
    CoverSum(data, BinKey, ks);
    SumCountsPrepend(data, BinKey, None, BinKeys(BinCount));
  }

  lemma {:induction false} SumCountsPrepend<T, K>(xs: seq<T>, key: T -> K, k: K, ks: seq<K>)
    ensures SumCounts(xs, key, [k] + ks) == CountKey(xs, key, k) + SumCounts(xs, key, ks)
    decreases |ks|
  {
    if ks != [] {
      var init := ks[..|ks| - 1];
      assert [k] + ks == ([k] + init) + [ks[|ks| - 1]];
      SumCountsPrepend(xs, key, k, init);
    } else {
      assert [k] + ks == [] + [k];
    }
  }

  /** A reading at exactly 400 km/h, or below 0, falls in no bin. */
  lemma OutOfRangeDropped()
    ensures BinOf(400.0).None? && BinOf(-0.5).None? && BinOf(399.9) == Some(15) && BinOf(0.0) == Some(0)
  {
  }
}
