/**
 * The `data.reduce((acc, curr) => …)` grouping the per-sensor, per-hour and
 * per-period widgets share: readings are bucketed by a key, each bucket
 * collecting its speeds in input order and counting them, and the keys
 * come out in first-appearance order (the object's insertion order).
 */
module Grouping {
  import opened Wrappers
  import opened Seqs
  import opened Stats
  import opened SpeedData

  datatype Bucket = Bucket(speeds: seq<real>, count: nat)

  /** The speeds of the readings with key `k`, in input order. */
  function SpeedsWithKey<K(==)>(data: seq<Reading>, key: Reading -> K, k: K): (r: seq<real>)
    ensures |r| == CountKey(data, key, k)
  {
    if data == [] then [] else
    var rest := SpeedsWithKey(data[..|data| - 1], key, k);
    var last := data[|data| - 1];
    if key(last) == k then rest + [last.speed] else rest
  }

  /** The keys, each once, in order of first appearance. */
  function KeysOf<K(==)>(data: seq<Reading>, key: Reading -> K): (r: seq<K>)
    ensures NoDuplicates(r)
  {
    Distinct(Map(data, key))
  }

  lemma KeysOfMembership<K>(data: seq<Reading>, key: Reading -> K, k: K)
    ensures k in KeysOf(data, key) <==> exists i :: 0 <= i < |data| && key(data[i]) == k
  {
    DistinctMembership(Map(data, key), k);
  }

  /** Appending a reading adds its key at the end when the key is new. */
  lemma KeysOfSnoc<K>(data: seq<Reading>, x: Reading, key: Reading -> K)
    ensures KeysOf(data + [x], key) == if key(x) in KeysOf(data, key) then KeysOf(data, key) else KeysOf(data, key) + [key(x)]
  {
    var m := Map(data + [x], key);
    assert m[..|m| - 1] == Map(data, key);
    assert m[|m| - 1] == key(x);
  }

  /** `data.reduce(...)` into a key list and a map from key to bucket. */
  method GroupSpeeds<K(==,!new)>(data: seq<Reading>, key: Reading -> K) returns (keys: seq<K>, groups: map<K, Bucket>)
    ensures keys == KeysOf(data, key)
    ensures forall k :: k in groups <==> k in keys
    ensures forall k :: k in groups ==> groups[k] == Bucket(SpeedsWithKey(data, key, k), CountKey(data, key, k))
  {
    keys := [];
    groups := map[];
    var i := 0;
    while i < |data|
      invariant 0 <= i <= |data|
      invariant keys == KeysOf(data[..i], key)
      invariant forall k :: k in groups <==> k in keys
      invariant forall k :: k in groups ==> groups[k] == Bucket(SpeedsWithKey(data[..i], key, k), CountKey(data[..i], key, k))
    {
      PrefixSnoc(data, i);
      KeysStep(data[..i], data[i], key, keys, groups, AddToBucket(groups, data[i], key));
      BucketsStep(data[..i], data[i], key, groups);
      keys := if key(data[i]) in groups then keys else keys + [key(data[i])];
      groups := AddToBucket(groups, data[i], key);
      i := i + 1;
    }
    assert data[..i] == data;
  }

  /** The reduce callback: the reading's key gets an empty bucket if it has none, then the speed is pushed and counted. */
  function AddToBucket<K>(groups: map<K, Bucket>, x: Reading, key: Reading -> K): (r: map<K, Bucket>)
    ensures r.Keys == groups.Keys + {key(x)}
    ensures forall k :: k in groups && k != key(x) ==> r[k] == groups[k]
    ensures key(x) in groups ==> r[key(x)].speeds == groups[key(x)].speeds + [x.speed] && r[key(x)].count == groups[key(x)].count + 1
    ensures key(x) !in groups ==> r[key(x)].speeds == [x.speed] && r[key(x)].count == 1
  {
    var b := if key(x) in groups then groups[key(x)] else Bucket([], 0);
    groups[key(x) := Bucket(b.speeds + [x.speed], b.count + 1)]
  }

  /** A reduce step over a map keyed by `key`: the key list grows by the new key exactly when the map does. */
  lemma KeysStep<K(!new), V>(prefix: seq<Reading>, x: Reading, key: Reading -> K, keys: seq<K>, m: map<K, V>, m': map<K, V>)
    requires keys == KeysOf(prefix, key)
    requires forall k :: k in m <==> k in keys
    requires m'.Keys == m.Keys + {key(x)}
    ensures (if key(x) in m then keys else keys + [key(x)]) == KeysOf(prefix + [x], key)
    ensures forall k :: k in m' <==> k in (if key(x) in m then keys else keys + [key(x)])
  {
    KeysOfSnoc(prefix, x, key);
  }

  /** The buckets after one step are the buckets of the longer prefix. */
  lemma BucketsStep<K(!new)>(prefix: seq<Reading>, x: Reading, key: Reading -> K, groups: map<K, Bucket>)
    requires forall k :: k in groups <==> k in KeysOf(prefix, key)
    requires forall k :: k in groups ==> groups[k] == Bucket(SpeedsWithKey(prefix, key, k), CountKey(prefix, key, k))
    ensures forall k :: k in AddToBucket(groups, x, key) ==>
      AddToBucket(groups, x, key)[k] == Bucket(SpeedsWithKey(prefix + [x], key, k), CountKey(prefix + [x], key, k))
  {
    if key(x) !in groups {
      KeysOfMembership(prefix, key, key(x));
      ZeroWithoutKey(prefix, key, key(x));
    }
    var after := AddToBucket(groups, x, key);
    forall k | k in after
      ensures after[k] == Bucket(SpeedsWithKey(prefix + [x], key, k), CountKey(prefix + [x], key, k))
    {
      BucketSnoc(prefix, x, key, k);
    }
  }

  /** `groups[k]` for each listed key: `None` (`undefined`) exactly for a key without readings. */
  method LookupBuckets<K(==)>(data: seq<Reading>, key: Reading -> K, ks: seq<K>, groups: map<K, Bucket>)
    returns (buckets: seq<Option<Bucket>>)
    requires forall k :: k in groups <==> k in KeysOf(data, key)
    requires forall k :: k in groups ==> groups[k] == Bucket(SpeedsWithKey(data, key, k), CountKey(data, key, k))
    ensures |buckets| == |ks|
    ensures forall i :: 0 <= i < |ks| ==> (buckets[i].None? <==> CountKey(data, key, ks[i]) == 0)
    ensures forall i :: 0 <= i < |ks| && buckets[i].Some? ==>
      buckets[i].value == Bucket(SpeedsWithKey(data, key, ks[i]), CountKey(data, key, ks[i]))
  {
    forall k | k !in groups
      ensures CountKey(data, key, k) == 0
    {
      KeysOfMembership(data, key, k);
      ZeroWithoutKey(data, key, k);
    }
    forall k | k in groups
      ensures CountKey(data, key, k) > 0
    {
      BucketNonEmpty(data, key, k);
    }
    buckets := seq(|ks|, i requires 0 <= i < |ks| => if ks[i] in groups then Some(groups[ks[i]]) else None);
  }

  /** `keys.map(k => round(mean(groups[k].speeds)))` and `keys.map(k => groups[k].count)` over some of the grouped keys. */
  method BucketAverages<K(==)>(data: seq<Reading>, key: Reading -> K, keys: seq<K>, groups: map<K, Bucket>)
    returns (avgSpeeds: seq<real>, counts: seq<nat>)
    requires forall k :: k in groups ==> groups[k] == Bucket(SpeedsWithKey(data, key, k), CountKey(data, key, k))
    requires forall k :: k in keys ==> k in groups && k in KeysOf(data, key)
    ensures |avgSpeeds| == |keys| && |counts| == |keys|
    ensures forall i :: 0 <= i < |keys| ==>
      && counts[i] == CountKey(data, key, keys[i])
      && |SpeedsWithKey(data, key, keys[i])| > 0
      && avgSpeeds[i] == RoundTenth(Mean(SpeedsWithKey(data, key, keys[i])))
  {
    forall i | 0 <= i < |keys|
      ensures |groups[keys[i]].speeds| > 0
    {
      BucketNonEmpty(data, key, keys[i]);
    }
    avgSpeeds := seq(|keys|, i requires 0 <= i < |keys| => RoundTenth(Mean(groups[keys[i]].speeds)));
    counts := seq(|keys|, i requires 0 <= i < |keys| => groups[keys[i]].count);
  }

  /** Appending a reading extends its own key's bucket and no other. */
  lemma BucketSnoc<K>(data: seq<Reading>, x: Reading, key: Reading -> K, k: K)
    ensures SpeedsWithKey(data + [x], key, k) == if key(x) == k then SpeedsWithKey(data, key, k) + [x.speed] else SpeedsWithKey(data, key, k)
    ensures CountKey(data + [x], key, k) == CountKey(data, key, k) + if key(x) == k then 1 else 0
  {
    assert (data + [x])[..|data|] == data;
  }

  /** A key that never occurs has an empty bucket. */
  lemma ZeroWithoutKey<K>(data: seq<Reading>, key: Reading -> K, k: K)
    requires forall i :: 0 <= i < |data| ==> key(data[i]) != k
    ensures SpeedsWithKey(data, key, k) == [] && CountKey(data, key, k) == 0
  {
    CountKeyPositive(data, key, k);
  }

  /** Every reading lands in exactly one bucket: the counts add up to the number of readings. */
  lemma CountsCoverData<K>(data: seq<Reading>, key: Reading -> K)
    ensures SumCounts(data, key, KeysOf(data, key)) == |data|
  {
    forall x | x in data
      ensures key(x) in KeysOf(data, key)
    {
      KeysOfMembership(data, key, key(x));
    }
    CoverSum(data, key, KeysOf(data, key));
  }

  /** The buckets of the listed keys are never empty. */
  lemma BucketNonEmpty<K>(data: seq<Reading>, key: Reading -> K, k: K)
    requires k in KeysOf(data, key)
    ensures |SpeedsWithKey(data, key, k)| > 0
  {
    KeysOfMembership(data, key, k);
    var i :| 0 <= i < |data| && key(data[i]) == k;
    CountKeyPositive(data, key, k);
  }

  /** The bucket holds exactly the speeds of its readings: every speed in it is one of theirs. */
  lemma {:induction false} BucketSpeedsFromKey<K>(data: seq<Reading>, key: Reading -> K, k: K, v: real)
    ensures v in SpeedsWithKey(data, key, k) <==> exists i :: 0 <= i < |data| && key(data[i]) == k && data[i].speed == v
  {
    if data != [] {
      var init := data[..|data| - 1];
      BucketSpeedsFromKey(init, key, k, v);
      assert forall i :: 0 <= i < |init| ==> init[i] == data[i];
      if v in SpeedsWithKey(data, key, k) && v !in SpeedsWithKey(init, key, k) {
        assert key(data[|data| - 1]) == k && data[|data| - 1].speed == v;
      }
    }
  }

  /** A bucket's mean lies between its smallest and largest speed. */
  lemma BucketMeanBetween<K>(data: seq<Reading>, key: Reading -> K, k: K)
    requires k in KeysOf(data, key)
    ensures |SpeedsWithKey(data, key, k)| > 0
    ensures Min(SpeedsWithKey(data, key, k)) <= Mean(SpeedsWithKey(data, key, k)) <= Max(SpeedsWithKey(data, key, k))
  {
    BucketNonEmpty(data, key, k);
    MeanBounds(SpeedsWithKey(data, key, k));
  }
}
