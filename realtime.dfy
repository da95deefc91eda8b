/**
 * The simulation hook `useRealtimeSpeedData(intervalMs, maxDataPoints)`:
 * it starts from the seed corpus and, on every interval tick, appends one
 * generated reading and keeps only the last `maxDataPoints` readings.
 */
module RealtimeFeed {
  import opened Seqs
  import opened SpeedData
  import opened MockData

  /**
   * The retention step after an append:
   * `newData.length > max ? newData.slice(-max) : newData`.
   */
  function Retain<T>(s: seq<T>, maxDataPoints: int): seq<T>
  {
    if |s| > maxDataPoints then JsSliceFrom(s, -maxDataPoints) else s
  }

  /**
   * For a positive bound, retention keeps exactly the last
   * `min(|s|, maxDataPoints)` elements, in their original order.
   */
  lemma RetainKeepsNewest<T>(s: seq<T>, maxDataPoints: int)
    requires maxDataPoints >= 1
    ensures |Retain(s, maxDataPoints)| == if |s| < maxDataPoints then |s| else maxDataPoints
    ensures Retain(s, maxDataPoints) == s[|s| - |Retain(s, maxDataPoints)|..]
  {
  }

  /** `slice(-0)` is `slice(0)`: a bound of 0 never evicts anything. */
  lemma RetainZeroKeepsAll<T>(s: seq<T>)
    ensures Retain(s, 0) == s
  {
  }

  /** One tick: the window after appending reading `r`. */
  function Appended<T>(window: seq<T>, r: T, maxDataPoints: int): seq<T>
  {
    Retain(window + [r], maxDataPoints)
  }

  /**
   * The appended reading is the newest element of the window, the window
   * grows by one up to the bound, and while there is room the old window is
   * kept whole as a prefix.
   */
  lemma AppendedEndsWithNew<T>(window: seq<T>, r: T, maxDataPoints: int)
    requires maxDataPoints >= 1
    ensures |Appended(window, r, maxDataPoints)| ==
      if |window| + 1 < maxDataPoints then |window| + 1 else maxDataPoints
    ensures Appended(window, r, maxDataPoints)[|Appended(window, r, maxDataPoints)| - 1] == r
    ensures |window| < maxDataPoints ==> Appended(window, r, maxDataPoints) == window + [r]
  {
    RetainKeepsNewest(window + [r], maxDataPoints);
  }

  /** Retaining early and then appending is the same as appending and then retaining. */
  lemma {:induction false} RetainAbsorbs<T>(x: seq<T>, y: seq<T>, maxDataPoints: int)
    requires maxDataPoints >= 1
    ensures Retain(Retain(x, maxDataPoints) + y, maxDataPoints) == Retain(x + y, maxDataPoints)
  {
    var m := maxDataPoints;
    if |x| > m {
      var a := x[|x| - m..];
      assert Retain(x, m) == a;
      assert a + y == (x + y)[|x| - m..];
      if |y| > 0 {
        assert Retain(a + y, m) == (a + y)[|a + y| - m..];
        assert Retain(x + y, m) == (x + y)[|x + y| - m..];
      }
    }
  }

  /** The window after the readings `rs` arrive one tick at a time. */
  function Feed<T>(window: seq<T>, rs: seq<T>, maxDataPoints: int): seq<T>
    decreases |rs|
  {
    if rs == [] then window else Feed(Appended(window, rs[0], maxDataPoints), rs[1..], maxDataPoints)
  }

  /**
   * After at least one tick, the window holds exactly the newest
   * `maxDataPoints` of everything seen, oldest first: eviction is FIFO.
   */
  lemma {:induction false} FeedKeepsNewest<T>(window: seq<T>, rs: seq<T>, maxDataPoints: int)
    requires maxDataPoints >= 1 && |rs| >= 1
    ensures Feed(window, rs, maxDataPoints) == Retain(window + rs, maxDataPoints)
    ensures |Feed(window, rs, maxDataPoints)| ==
      if |window| + |rs| < maxDataPoints then |window| + |rs| else maxDataPoints
    decreases |rs|
  {
    var m := maxDataPoints;
    if |rs| == 1 {
      assert rs == [rs[0]];
    } else {
      FeedKeepsNewest(Appended(window, rs[0], m), rs[1..], m);
      RetainAbsorbs(window + [rs[0]], rs[1..], m);
      assert window + [rs[0]] + rs[1..] == window + rs;
    }
    RetainKeepsNewest(window + rs, m);
  }

  /**
   * The hook's state: the `data` and `lastId` state variables, the two
   * parameters, and whether the interval is armed.
   */
  class Feeder {
    var window: seq<Reading>
    var lastId: int
    var intervalMs: int
    var maxDataPoints: int
    var running: bool
    /** The number of ticks so far, and the size of the seed `lastId` started from. */
    ghost var ticks: nat
    ghost const seedSize: nat

    ghost predicate Valid()
      reads this
    {
      lastId == seedSize + ticks
    }

    /** Mount: the window is the seed, untruncated, and `lastId` its length. */
    constructor (seed: seq<Reading>, intervalMs: int, maxDataPoints: int)
      ensures Valid()
      ensures window == seed && lastId == |seed| && ticks == 0 && seedSize == |seed|
      ensures this.intervalMs == intervalMs && this.maxDataPoints == maxDataPoints && running
    {
      window := seed;
      lastId := |seed|;
      this.intervalMs := intervalMs;
      this.maxDataPoints := maxDataPoints;
      running := true;
      ticks := 0;
      seedSize := |seed|;
    }

    /**
     * One interval callback: generate reading `lastId + 1` at `nowMs`, append
     * it, keep the newest `maxDataPoints`, and count it in `lastId`. After
     * teardown no callback fires.
     */
    method Tick(d: Draw, nowMs: int)
      requires Valid() && ValidDraw(d)
      modifies this
      ensures Valid()
      ensures intervalMs == old(intervalMs) && maxDataPoints == old(maxDataPoints) && running == old(running)
      ensures old(running) ==> window == Appended(old(window), SimulatedReading(old(lastId) + 1, nowMs, d), maxDataPoints)
      ensures old(running) ==> lastId == old(lastId) + 1 && ticks == old(ticks) + 1
      ensures !old(running) ==> window == old(window) && lastId == old(lastId) && ticks == old(ticks)
    {
      if running {
        var newDataPoint := SimulatedReading(lastId + 1, nowMs, d);
        window := Appended(window, newDataPoint, maxDataPoints);
        lastId := lastId + 1;
        ticks := ticks + 1;
      }
    }

    /**
     * New parameters: the effect's cleanup clears the old interval and a new
     * one is armed; the window is kept as it is until the next tick.
     */
    method Reconfigure(newIntervalMs: int, newMaxDataPoints: int)
      requires Valid()
      modifies this
      ensures Valid()
      ensures intervalMs == newIntervalMs && maxDataPoints == newMaxDataPoints
      ensures window == old(window) && lastId == old(lastId) && ticks == old(ticks) && running == old(running)
    {
      intervalMs := newIntervalMs;
      maxDataPoints := newMaxDataPoints;
    }

    /** Unmount: the effect's cleanup calls `clearInterval`. */
    method Unmount()
      requires Valid()
      modifies this
      ensures Valid() && !running
      ensures window == old(window) && lastId == old(lastId) && ticks == old(ticks)
      ensures intervalMs == old(intervalMs) && maxDataPoints == old(maxDataPoints)
    {
      running := false;
    }
  }
}
