/**
 * The dashboard page: the settings filter over the live window, the list of
 * sensor names seen, the headline statistics, and the "new record" badge
 * that lights up for three seconds when the maximum speed rises.
 */
module Page {
  import opened Wrappers
  import opened Seqs
  import opened Sorting
  import opened Text
  import opened Stats
  import opened SpeedData
  import opened Settings
  import opened SettingsPanel

  // ------------------------------------------------------------- filtering

  /** The three conditions a reading must meet to be shown. */
  predicate SensorMatch(s: AppSettings, r: Reading)
  {
    |s.selectedSensors| == 0 || NameOr(r.sensorName, "") in s.selectedSensors
  }

  predicate LaneMatch(s: AppSettings, r: Reading)
  {
    r.lane in s.selectedLanes
  }

  predicate SpeedMatch(s: AppSettings, r: Reading)
  {
    !s.enableAlerts || (s.speedThresholdMin as real <= r.speed <= s.speedThresholdMax as real)
  }

  predicate Keep(s: AppSettings, r: Reading)
  {
    SensorMatch(s, r) && LaneMatch(s, r) && SpeedMatch(s, r)
  }

  /** `filteredData`. */
  function FilteredData(s: AppSettings, window: seq<Reading>): (r: seq<Reading>)
    ensures |r| <= |window|
    ensures forall i :: 0 <= i < |r| ==> Keep(s, r[i])
  {
    FilterAll(window, x => Keep(s, x));
    Filter(window, x => Keep(s, x))
  }

  /** A reading is shown exactly when it is in the window and meets all three conditions. */
  lemma FilteredMembership(s: AppSettings, window: seq<Reading>, r: Reading)
    ensures r in FilteredData(s, window) <==> r in window && SensorMatch(s, r) && LaneMatch(s, r) && SpeedMatch(s, r)
  {
    FilterMembership(window, x => Keep(s, x), r);
  }

  /** The shown readings keep the window's order. */
  lemma FilteredIsSubsequence(s: AppSettings, window: seq<Reading>)
    ensures IsSubsequence(FilteredData(s, window), window)
  {
    FilterIsSubsequence(window, x => Keep(s, x));
  }

  /** With no lane selected nothing is shown, whatever the other settings. */
  lemma NoLanesShowsNothing(s: AppSettings, window: seq<Reading>)
    requires s.selectedLanes == []
    ensures FilteredData(s, window) == []
  {
    FilterFalse(window, x => Keep(s, x));
  }

  /**
   * The sensor condition is the panel's `isSensorSelected` applied to the
   * reading's name, a missing name reading as "".
   */
  lemma SensorMatchIsSelected(s: AppSettings, r: Reading)
    ensures SensorMatch(s, r) <==> IsSensorSelected(s, NameOr(r.sensorName, ""))
  {
  }

  // ------------------------------------------------------ available sensors

  /** The non-null sensor names, in window order. */
  function PresentNames(window: seq<Reading>): (r: seq<string>)
    ensures forall n :: n in r <==> exists i :: 0 <= i < |window| && window[i].sensorName == Some(n)
  {
    if window == [] then [] else
    var rest := PresentNames(window[..|window| - 1]);
    var last := window[|window| - 1];
    assert forall i :: 0 <= i < |window| - 1 ==> window[..|window| - 1][i] == window[i];
    if last.sensorName.Some? then rest + [last.sensorName.value] else rest
  }

  /**
   * `availableSensors`: the distinct non-null names, in ascending code-unit
   * order; each is strictly before the next, so none repeats.
   */
  function AvailableSensors(window: seq<Reading>): (r: seq<string>)
    ensures forall i, j :: 0 <= i < j < |r| ==> StrCompare(r[i], r[j]) < 0
    ensures forall n :: n in r <==> exists i :: 0 <= i < |window| && window[i].sensorName == Some(n)
  {
    var names := Distinct(PresentNames(window));
    forall n
      ensures n in names <==> n in PresentNames(window)
    {
      DistinctMembership(PresentNames(window), n);
    }
    SortStrings(names)
  }

  // ------------------------------------------------------------- statistics

  datatype PageStats = PageStats(avgSpeed: real, maxSpeed: real, minSpeed: real, totalReadings: nat)

  /**
   * `stats`: all zero for no readings; otherwise mean, maximum and minimum
   * rounded to a tenth, and the count.
   */
  function StatsOf(shown: seq<Reading>): (r: PageStats)
    ensures shown == [] ==> r == PageStats(0.0, 0.0, 0.0, 0)
    ensures r.totalReadings == |shown|
    ensures shown != [] ==> r.minSpeed <= r.avgSpeed <= r.maxSpeed
    ensures shown != [] ==> r.avgSpeed == RoundTenth(Mean(Speeds(shown)))
    ensures shown != [] ==> r.maxSpeed == RoundTenth(Max(Speeds(shown)))
    ensures shown != [] ==> r.minSpeed == RoundTenth(Min(Speeds(shown)))
  {
    if shown == [] then PageStats(0.0, 0.0, 0.0, 0) else
    var speeds := Speeds(shown);
    MeanBounds(speeds);
    RoundTenthMonotone(Min(speeds), Mean(speeds));
    RoundTenthMonotone(Mean(speeds), Max(speeds));
    PageStats(RoundTenth(Mean(speeds)), RoundTenth(Max(speeds)), RoundTenth(Min(speeds)), |shown|)
  }

  /** The rounded maximum is at least the rounded speed of every shown reading. */
  lemma MaxDominates(shown: seq<Reading>, k: nat)
    requires k < |shown|
    ensures RoundTenth(shown[k].speed) <= StatsOf(shown).maxSpeed
  {
    RoundTenthMonotone(Speeds(shown)[k], Max(Speeds(shown)));
  }

  // ---------------------------------------------------------- record latch

  /**
   * The badge's state: the `hasNewRecord` flag, the `previousMaxSpeed` ref,
   * and whether the three-second timer that clears the flag is pending.
   */
  datatype Latch = Latch(hasNewRecord: bool, previousMax: real, timerArmed: bool)

  const InitialLatch: Latch := Latch(false, 0.0, false)

  /** A new record: above the previous maximum, which itself is above 0 (not the first load). */
  predicate IsRecord(previousMax: real, maxSpeed: real)
  {
    maxSpeed > previousMax && previousMax > 0.0
  }

  /**
   * The effect as written, run when `stats.maxSpeed` changes: React first
   * runs the previous run's cleanup (which only cancels the timer), then the
   * body, which on a record raises the flag and arms the timer, and
   * otherwise stores the new maximum.
   */
  function OnMaxSpeedAsWritten(l: Latch, maxSpeed: real): (r: Latch)
    ensures IsRecord(l.previousMax, maxSpeed) ==> r == Latch(true, l.previousMax, true)
    ensures !IsRecord(l.previousMax, maxSpeed) ==> r == Latch(l.hasNewRecord, maxSpeed, false)
  {
    var cleaned := l.(timerArmed := false);
    if IsRecord(cleaned.previousMax, maxSpeed) then
      cleaned.(hasNewRecord := true, timerArmed := true)
    else
      cleaned.(previousMax := maxSpeed)
  }

  /** The pending timer fires: the flag drops. A cancelled timer never fires. */
  function TimerFires(l: Latch): (r: Latch)
    ensures l.timerArmed ==> !r.hasNewRecord && !r.timerArmed && r.previousMax == l.previousMax
    ensures !l.timerArmed ==> r == l
  {
    if l.timerArmed then l.(hasNewRecord := false, timerArmed := false) else l
  }

  /**
   * As written, the flag can stay raised with no timer left to lower it:
   * maxima 200, 250, 150 in quick succession leave it on, and the timer that
   * would have cleared it was cancelled by the third run's cleanup.
   */
  lemma StuckBadgeAsWritten()
    ensures var l := OnMaxSpeedAsWritten(OnMaxSpeedAsWritten(OnMaxSpeedAsWritten(InitialLatch, 200.0), 250.0), 150.0);
      l.hasNewRecord && !l.timerArmed && TimerFires(l) == l
  {
  }

  /**
   * As written, the stored maximum is not updated on a record, so a later,
   * lower maximum still counts as a record: after 200 and 250, a maximum of
   * 240 raises the flag again.
   */
  lemma LowerMaxFlaggedAsWritten()
    ensures var l := TimerFires(OnMaxSpeedAsWritten(OnMaxSpeedAsWritten(InitialLatch, 200.0), 250.0));
      !l.hasNewRecord && OnMaxSpeedAsWritten(l, 240.0).hasNewRecord
  {
  }

  /**
   * The effect as evidently intended: the cleanup cancels the timer and
   * lowers the flag with it, and the body always remembers the maximum it
   * has seen.
   */
  function OnMaxSpeed(l: Latch, maxSpeed: real): (r: Latch)
    ensures r.hasNewRecord <==> IsRecord(l.previousMax, maxSpeed)
    ensures r.timerArmed == r.hasNewRecord
    ensures r.previousMax == maxSpeed
  {
    var cleaned := l.(hasNewRecord := false, timerArmed := false);
    if IsRecord(cleaned.previousMax, maxSpeed) then
      Latch(true, maxSpeed, true)
    else
      cleaned.(previousMax := maxSpeed)
  }

  /** The intended badge is never stuck: while it is lit, its timer is pending. */
  predicate LatchInvariant(l: Latch)
  {
    l.hasNewRecord ==> l.timerArmed
  }

  lemma LatchInvariantKept(l: Latch, maxSpeed: real)
    requires LatchInvariant(l)
    ensures LatchInvariant(OnMaxSpeed(l, maxSpeed)) && LatchInvariant(TimerFires(l))
    ensures TimerFires(l).previousMax == l.previousMax
  {
  }

  /** With the intended effect, 200, 250, 150 does not leave the badge lit, and 240 after 250 is not a record. */
  lemma IntendedLatchSequences()
    ensures !OnMaxSpeed(OnMaxSpeed(OnMaxSpeed(InitialLatch, 200.0), 250.0), 150.0).hasNewRecord
    ensures OnMaxSpeed(OnMaxSpeed(InitialLatch, 200.0), 250.0).hasNewRecord
    ensures !OnMaxSpeed(TimerFires(OnMaxSpeed(OnMaxSpeed(InitialLatch, 200.0), 250.0)), 240.0).hasNewRecord
  {
  }

  /** The badge, holding the latch state and stepping it with the intended effect. */
  class RecordBadge {
    var state: Latch

    ghost predicate Valid()
      reads this
    {
      LatchInvariant(state)
    }

    constructor ()
      ensures Valid() && state == InitialLatch
    {
      state := InitialLatch;
    }

    /** Called with the new rounded maximum whenever it changes. */
    method MaxSpeedChanged(maxSpeed: real)
      requires Valid()
      modifies this
      ensures Valid()
      ensures state == OnMaxSpeed(old(state), maxSpeed)
      ensures state.hasNewRecord <==> maxSpeed > old(state.previousMax) > 0.0
    {
      var lit := IsRecord(state.previousMax, maxSpeed);
      state := Latch(lit, maxSpeed, lit);
    }

    /** The three-second timer has elapsed. */
    method TimerElapsed()
      requires Valid()
      modifies this
      ensures Valid()
      ensures state == TimerFires(old(state))
      ensures !state.hasNewRecord
    {
      if state.timerArmed {
        state := state.(hasNewRecord := false, timerArmed := false);
      }
    }
  }
}
