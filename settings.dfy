/**
 * The application settings record, its defaults, and the provider that holds
 * the current settings: partial updates merge into them, a reset restores the
 * defaults, start-up merges what was stored over the defaults, and every
 * change after start-up is written back to storage.
 */
module Settings {
  import opened Wrappers
  import opened SpeedData

  datatype AppSettings = AppSettings(
    selectedSensors: seq<string>,   // empty means every sensor
    selectedLanes: seq<Lane>,
    updateInterval: int,            // milliseconds
    maxDataPoints: int,
    showLaneDistribution: bool,
    showSensorStats: bool,
    showSpeedChart: bool,
    showHourlyTrend: bool,
    showSpeedRecords: bool,
    showSpeedDistribution: bool,
    showAverageSpeedBySensor: bool,
    showActivityHeatmap: bool,
    speedThresholdMin: int,
    speedThresholdMax: int,
    enableAlerts: bool)

  const DefaultSettings: AppSettings := AppSettings(
    [], [Left, Right], 3000, 120,
    true, true, true, true, true, true, true, true,
    80, 350, false)

  /** The defaults: all sensors, both lanes, 3 s, 120 points, every chart shown, alerts off at 80-350. */
  lemma DefaultsAre()
    ensures DefaultSettings.updateInterval == 3000 && DefaultSettings.maxDataPoints == 120
    ensures DefaultSettings.selectedSensors == [] && Left in DefaultSettings.selectedLanes && Right in DefaultSettings.selectedLanes
    ensures DefaultSettings.speedThresholdMin < DefaultSettings.speedThresholdMax && !DefaultSettings.enableAlerts
    ensures AllChartsShown(DefaultSettings)
  {
  }

  predicate AllChartsShown(s: AppSettings)
  {
    && s.showLaneDistribution && s.showSensorStats && s.showSpeedChart && s.showHourlyTrend
    && s.showSpeedRecords && s.showSpeedDistribution && s.showAverageSpeedBySensor && s.showActivityHeatmap
  }

  /** `Partial<AppSettings>`: each field present or absent. */
  datatype SettingsPatch = SettingsPatch(
    selectedSensors: Option<seq<string>>,
    selectedLanes: Option<seq<Lane>>,
    updateInterval: Option<int>,
    maxDataPoints: Option<int>,
    showLaneDistribution: Option<bool>,
    showSensorStats: Option<bool>,
    showSpeedChart: Option<bool>,
    showHourlyTrend: Option<bool>,
    showSpeedRecords: Option<bool>,
    showSpeedDistribution: Option<bool>,
    showAverageSpeedBySensor: Option<bool>,
    showActivityHeatmap: Option<bool>,
    speedThresholdMin: Option<int>,
    speedThresholdMax: Option<int>,
    enableAlerts: Option<bool>)

  const EmptyPatch: SettingsPatch := SettingsPatch(
    None, None, None, None, None, None, None, None, None, None, None, None, None, None, None)

  /** `{...s, ...p}`: the fields present in `p` win. */
  function Merge(s: AppSettings, p: SettingsPatch): AppSettings
  {
    AppSettings(
      p.selectedSensors.GetOr(s.selectedSensors),
      p.selectedLanes.GetOr(s.selectedLanes),
      p.updateInterval.GetOr(s.updateInterval),
      p.maxDataPoints.GetOr(s.maxDataPoints),
      p.showLaneDistribution.GetOr(s.showLaneDistribution),
      p.showSensorStats.GetOr(s.showSensorStats),
      p.showSpeedChart.GetOr(s.showSpeedChart),
      p.showHourlyTrend.GetOr(s.showHourlyTrend),
      p.showSpeedRecords.GetOr(s.showSpeedRecords),
      p.showSpeedDistribution.GetOr(s.showSpeedDistribution),
      p.showAverageSpeedBySensor.GetOr(s.showAverageSpeedBySensor),
      p.showActivityHeatmap.GetOr(s.showActivityHeatmap),
      p.speedThresholdMin.GetOr(s.speedThresholdMin),
      p.speedThresholdMax.GetOr(s.speedThresholdMax),
      p.enableAlerts.GetOr(s.enableAlerts))
  }

  /** `{...p, ...q}` of two partials: the later one wins field by field. */
  function Combine(p: SettingsPatch, q: SettingsPatch): SettingsPatch
  {
    SettingsPatch(
      Later(p.selectedSensors, q.selectedSensors),
      Later(p.selectedLanes, q.selectedLanes),
      Later(p.updateInterval, q.updateInterval),
      Later(p.maxDataPoints, q.maxDataPoints),
      Later(p.showLaneDistribution, q.showLaneDistribution),
      Later(p.showSensorStats, q.showSensorStats),
      Later(p.showSpeedChart, q.showSpeedChart),
      Later(p.showHourlyTrend, q.showHourlyTrend),
      Later(p.showSpeedRecords, q.showSpeedRecords),
      Later(p.showSpeedDistribution, q.showSpeedDistribution),
      Later(p.showAverageSpeedBySensor, q.showAverageSpeedBySensor),
      Later(p.showActivityHeatmap, q.showActivityHeatmap),
      Later(p.speedThresholdMin, q.speedThresholdMin),
      Later(p.speedThresholdMax, q.speedThresholdMax),
      Later(p.enableAlerts, q.enableAlerts))
  }

  /**
   * A merge sets each field the partial carries and leaves every other field
   * as it was; the empty partial changes nothing.
   */
  lemma MergeSetsPresentFields(s: AppSettings, p: SettingsPatch)
    ensures Merge(s, p).selectedSensors == (if p.selectedSensors.Some? then p.selectedSensors.value else s.selectedSensors)
    ensures Merge(s, p).selectedLanes == (if p.selectedLanes.Some? then p.selectedLanes.value else s.selectedLanes)
    ensures Merge(s, p).updateInterval == (if p.updateInterval.Some? then p.updateInterval.value else s.updateInterval)
    ensures Merge(s, p).maxDataPoints == (if p.maxDataPoints.Some? then p.maxDataPoints.value else s.maxDataPoints)
    ensures Merge(s, p).showLaneDistribution == (if p.showLaneDistribution.Some? then p.showLaneDistribution.value else s.showLaneDistribution)
    ensures Merge(s, p).showSensorStats == (if p.showSensorStats.Some? then p.showSensorStats.value else s.showSensorStats)
    ensures Merge(s, p).showSpeedChart == (if p.showSpeedChart.Some? then p.showSpeedChart.value else s.showSpeedChart)
    ensures Merge(s, p).showHourlyTrend == (if p.showHourlyTrend.Some? then p.showHourlyTrend.value else s.showHourlyTrend)
    ensures Merge(s, p).showSpeedRecords == (if p.showSpeedRecords.Some? then p.showSpeedRecords.value else s.showSpeedRecords)
    ensures Merge(s, p).showSpeedDistribution == (if p.showSpeedDistribution.Some? then p.showSpeedDistribution.value else s.showSpeedDistribution)
    ensures Merge(s, p).showAverageSpeedBySensor == (if p.showAverageSpeedBySensor.Some? then p.showAverageSpeedBySensor.value else s.showAverageSpeedBySensor)
    ensures Merge(s, p).showActivityHeatmap == (if p.showActivityHeatmap.Some? then p.showActivityHeatmap.value else s.showActivityHeatmap)
    ensures Merge(s, p).speedThresholdMin == (if p.speedThresholdMin.Some? then p.speedThresholdMin.value else s.speedThresholdMin)
    ensures Merge(s, p).speedThresholdMax == (if p.speedThresholdMax.Some? then p.speedThresholdMax.value else s.speedThresholdMax)
    ensures Merge(s, p).enableAlerts == (if p.enableAlerts.Some? then p.enableAlerts.value else s.enableAlerts)
    ensures p == EmptyPatch ==> Merge(s, p) == s
  {
  }

  /** Applying the same partial twice is the same as applying it once. */
  lemma MergeIdempotent(s: AppSettings, p: SettingsPatch)
    ensures Merge(Merge(s, p), p) == Merge(s, p)
  {
  }

  /** Two successive updates equal one update by their combination. */
  lemma MergeCombine(s: AppSettings, p: SettingsPatch, q: SettingsPatch)
    ensures Merge(Merge(s, p), q) == Merge(s, Combine(p, q))
  {
    MergeCombineSources(s, p, q);
    MergeCombinePanels(s, p, q);
    MergeCombineMorePanels(s, p, q);
    MergeCombineAlerts(s, p, q);
  }

  lemma MergeCombineSources(s: AppSettings, p: SettingsPatch, q: SettingsPatch)
    ensures Merge(Merge(s, p), q).selectedSensors == Merge(s, Combine(p, q)).selectedSensors
    ensures Merge(Merge(s, p), q).selectedLanes == Merge(s, Combine(p, q)).selectedLanes
    ensures Merge(Merge(s, p), q).updateInterval == Merge(s, Combine(p, q)).updateInterval
    ensures Merge(Merge(s, p), q).maxDataPoints == Merge(s, Combine(p, q)).maxDataPoints
  {
    LaterWins(s.selectedSensors, p.selectedSensors, q.selectedSensors);
    LaterWins(s.selectedLanes, p.selectedLanes, q.selectedLanes);
    LaterWins(s.updateInterval, p.updateInterval, q.updateInterval);
    LaterWins(s.maxDataPoints, p.maxDataPoints, q.maxDataPoints);
  }

  lemma MergeCombinePanels(s: AppSettings, p: SettingsPatch, q: SettingsPatch)
    ensures Merge(Merge(s, p), q).showLaneDistribution == Merge(s, Combine(p, q)).showLaneDistribution
    ensures Merge(Merge(s, p), q).showSensorStats == Merge(s, Combine(p, q)).showSensorStats
    ensures Merge(Merge(s, p), q).showSpeedChart == Merge(s, Combine(p, q)).showSpeedChart
    ensures Merge(Merge(s, p), q).showHourlyTrend == Merge(s, Combine(p, q)).showHourlyTrend
  {
    LaterWins(s.showLaneDistribution, p.showLaneDistribution, q.showLaneDistribution);
    LaterWins(s.showSensorStats, p.showSensorStats, q.showSensorStats);
    LaterWins(s.showSpeedChart, p.showSpeedChart, q.showSpeedChart);
    LaterWins(s.showHourlyTrend, p.showHourlyTrend, q.showHourlyTrend);
  }

  lemma MergeCombineMorePanels(s: AppSettings, p: SettingsPatch, q: SettingsPatch)
    ensures Merge(Merge(s, p), q).showSpeedRecords == Merge(s, Combine(p, q)).showSpeedRecords
    ensures Merge(Merge(s, p), q).showSpeedDistribution == Merge(s, Combine(p, q)).showSpeedDistribution
    ensures Merge(Merge(s, p), q).showAverageSpeedBySensor == Merge(s, Combine(p, q)).showAverageSpeedBySensor
    ensures Merge(Merge(s, p), q).showActivityHeatmap == Merge(s, Combine(p, q)).showActivityHeatmap
  {
    LaterWins(s.showSpeedRecords, p.showSpeedRecords, q.showSpeedRecords);
    LaterWins(s.showSpeedDistribution, p.showSpeedDistribution, q.showSpeedDistribution);
    LaterWins(s.showAverageSpeedBySensor, p.showAverageSpeedBySensor, q.showAverageSpeedBySensor);
    LaterWins(s.showActivityHeatmap, p.showActivityHeatmap, q.showActivityHeatmap);
  }

  lemma MergeCombineAlerts(s: AppSettings, p: SettingsPatch, q: SettingsPatch)
    ensures Merge(Merge(s, p), q).speedThresholdMin == Merge(s, Combine(p, q)).speedThresholdMin
    ensures Merge(Merge(s, p), q).speedThresholdMax == Merge(s, Combine(p, q)).speedThresholdMax
    ensures Merge(Merge(s, p), q).enableAlerts == Merge(s, Combine(p, q)).enableAlerts
  {
    LaterWins(s.speedThresholdMin, p.speedThresholdMin, q.speedThresholdMin);
    LaterWins(s.speedThresholdMax, p.speedThresholdMax, q.speedThresholdMax);
    LaterWins(s.enableAlerts, p.enableAlerts, q.enableAlerts);
  }

  /** One field of `{...p, ...q}`: the later value when it is present. */
  function Later<T>(a: Option<T>, b: Option<T>): (r: Option<T>)
    ensures r.Some? <==> a.Some? || b.Some?
    ensures b.Some? ==> r == b
  {
    if b.Some? then b else a
  }

  lemma LaterWins<T>(x: T, a: Option<T>, b: Option<T>)
    ensures b.GetOr(a.GetOr(x)) == Later(a, b).GetOr(x)
  {
  }

  /** What the storage key held at start-up. */
  datatype Stored = Missing | Unparsable | Parsed(patch: SettingsPatch)

  /**
   * The settings the load effect leaves when the provider still holds its
   * initial defaults: a parsed entry gives `{...defaultSettings,
   * ...JSON.parse(stored)}`, and nothing stored (or an entry that fails to
   * parse) keeps the current settings, which at start-up are the defaults.
   */
  function LoadSettings(stored: Stored): (r: AppSettings)
    ensures stored.Missing? || stored.Unparsable? ==> r == DefaultSettings
    ensures stored.Parsed? ==> r == Merge(DefaultSettings, stored.patch)
  {
    match stored
    case Missing => DefaultSettings
    case Unparsable => DefaultSettings
    case Parsed(p) => Merge(DefaultSettings, p)
  }

  /** A stored entry overrides only the fields it has; the others keep their defaults. */
  lemma LoadKeepsMissingDefaults(p: SettingsPatch)
    ensures p.maxDataPoints.None? ==> LoadSettings(Parsed(p)).maxDataPoints == 120
    ensures p.updateInterval.None? ==> LoadSettings(Parsed(p)).updateInterval == 3000
    ensures p.maxDataPoints.Some? ==> LoadSettings(Parsed(p)).maxDataPoints == p.maxDataPoints.value
    ensures LoadSettings(Parsed(EmptyPatch)) == DefaultSettings
  {
  }

  /** `useSettings()`: outside a provider there is no context and the hook throws. */
  function UseSettings<C>(context: Option<C>): (r: Result<C, string>)
    ensures r.Success? <==> context.Some?
    ensures r.Success? ==> r.value == context.value
  {
    match context
    case Some(c) => Success(c)
    case None => Failure("useSettings doit être utilisé dans un SettingsProvider")
  }

  /**
   * `SettingsProvider`: the `settings` and `isInitialized` state and the
   * value last written to the storage key (`None` until the first write).
   */
  class Provider {
    var settings: AppSettings
    var isInitialized: bool
    var persisted: Option<AppSettings>

    /** The save effect writes only after start-up, and then always the current settings. */
    ghost predicate Valid()
      reads this
    {
      && (isInitialized ==> persisted == Some(settings))
      && (!isInitialized ==> persisted == None)
    }

    constructor ()
      ensures Valid() && settings == DefaultSettings && !isInitialized && persisted.None?
    {
      settings := DefaultSettings;
      isInitialized := false;
      persisted := None;
    }

    /**
     * The load effect, then the save effect it triggers: only a parsed entry
     * replaces the settings; otherwise whatever is current (the defaults, or
     * an update made before the load) stays and is persisted.
     */
    method Initialize(stored: Stored)
      requires Valid()
      modifies this
      ensures Valid() && isInitialized
      ensures stored.Parsed? ==> settings == LoadSettings(stored)
      ensures !stored.Parsed? ==> settings == old(settings)
      ensures persisted == Some(settings)
    {
      if stored.Parsed? {
        settings := LoadSettings(stored);
      }
      isInitialized := true;
      persisted := Some(settings);
    }

    method UpdateSettings(p: SettingsPatch)
      requires Valid()
      modifies this
      ensures Valid() && isInitialized == old(isInitialized)
      ensures settings == Merge(old(settings), p)
      ensures isInitialized ==> persisted == Some(settings)
      ensures !isInitialized ==> persisted == old(persisted)
    {
      settings := Merge(settings, p);
      if isInitialized {
        persisted := Some(settings);
      }
    }

    method ResetSettings()
      requires Valid()
      modifies this
      ensures Valid() && isInitialized == old(isInitialized)
      ensures settings == DefaultSettings
      ensures isInitialized ==> persisted == Some(DefaultSettings)
      ensures !isInitialized ==> persisted == old(persisted)
    {
      settings := DefaultSettings;
      if isInitialized {
        persisted := Some(settings);
      }
    }
  }
}
