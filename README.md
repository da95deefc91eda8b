# race-board, modelled in Dafny

race-board is a dashboard for speed readings taken by trackside sensors on
a racing circuit. A reading (`SpeedData`) carries an id, an optional sensor
name, a speed in km/h, a lane (Left or Right) and a creation time. This
project models the deterministic part of the dashboard and proves what it
promises:

- **The live window.** A seed of simulated readings is generated at start-up,
  one reading a minute before "now". A timer appends one fresh simulated
  reading per tick and keeps only the newest `maxDataPoints` of them
  (`MockData`, `RealtimeFeed`).
- **The page.** The page filters the window by the settings (sensor
  selection, lanes, alert thresholds). It lists the sensor names present,
  computes the headline statistics, and raises a short-lived "new record"
  badge (`Page`).
- **The settings.** The settings record has its defaults. The provider
  merges partial updates, resets, loads from storage and persists only once
  it has started. The settings panel toggles sensors and lanes and falls
  back when a threshold input cannot be read (`Settings`, `SettingsPanel`).
- **The wire-record validator.** It holds the schema constraints of an API
  record and of an array of them, and reports what fails (`Validation`).
- **The records table.** The table filters each column by substring, cycles
  the sort on repeated clicks with missing names last, paginates, clamps page
  navigation and resizes columns with a minimum width (`SpeedRecords`).
- **The chart widgets.** These are the speed chart's lane alignment, the
  25 km/h histogram, the consistency card, time-of-day periods, the top five
  sensors, the hourly trend, the sensor × hour heatmap, per-sensor statistics
  and averages, and the lane distribution and lane performance. Each is a
  group-by or a histogram. The proofs are that every reading lands in exactly
  one bucket and that the counts add up to the number of readings.
- **The shareable URL.** A local address in the URL is rewritten to the
  machine's network address, and a candidate address is accepted or rejected
  by a fixed test (`LocalIp`).

**How the source maps onto Dafny:**
- A React state hook that a component updates becomes a `class` whose methods
  change its fields: `Feeder`, `Provider`, `RecordsTable` and `RecordBadge`.
- The `reduce` loops that fill an accumulator in place become methods with
  loops and invariants. These are the generic `Grouping.GroupSpeeds`,
  `AverageSpeed.AccumulateTotals`, `SpeedDistribution.Distribution` and the
  heatmap's matrix methods. Each loop is proved against a specification
  function (`KeysOf`, `SpeedsWithKey`, `CountKey`).
- Pure expressions become functions with named results and lemmas.

**Modules shared by the widgets:**

| module | holds |
|---|---|
| `Wrappers` | `Option` and `Result` |
| `Seqs` | filter, distinct, counting by key, the sum of counts over a key list |
| `Sorting` | a stable insertion sort by a total preorder, with its ordering, permutation and stability lemmas |
| `Stats` | sum, mean, min, max, variance and one-decimal rounding |
| `Text` | substring search, first-occurrence replace, code-unit string order, string sort |

**Conventions:**
- Speeds are `real`.
- Timestamps are integer milliseconds.
- `Math.round(x * 10) / 10` is `Stats.RoundTenth`, which is `floor(10x + 1/2) / 10`.
- Randomness, the clock and the browser are parameters.

## Model

| member | source | states |
|---|---|---|
| SpeedData.NameOr | src/components/dashboard/sensor-stats.tsx:17 | JavaScript's `or` fallback on a name: a present, non-empty name is kept; a missing or empty one becomes the fallback |
| SpeedData.HourOf | src/components/dashboard/time-period-analysis.tsx:23 | the hour of day of an instant lies in 0..23 |
| SpeedData.Speeds | src/app/page.tsx:85 | the speeds of the readings, index by index |
| MockData.SimulatedSpeed | src/lib/mock-data.ts:17-19 | the clamped simulated speed always lies in [80, 350] |
| MockData.SensorIndex | src/lib/mock-data.ts:23 | `floor(r * 8)` for r in [0, 1) indexes the eight-sensor catalogue |
| MockData.SimulatedReading | src/lib/mock-data.ts:21-27 | a simulated reading has the given id and time, a speed in [80, 350] and a catalogue sensor name |
| MockData.UnclampedReading | src/lib/mock-data.ts:36-44 | the unclamped live generator uses `Date.now()` as both id and time; its speed lies in [150, 300] and its sensor is from the catalogue |
| MockData.SeedTime | src/lib/mock-data.ts:13-14 | reading i of n is stamped n − i minutes before now, so strictly before now |
| MockData.GenerateSpeedData | src/lib/mock-data.ts:8-31 | exactly `count` readings; reading i has id i + 1 and a time before now; times strictly increase; speeds lie in [80, 350] |
| MockData.SeedInOrder | src/lib/mock-data.ts:30 | the final sort by creation time leaves the seed unchanged |
| MockData.MockSpeedData | src/lib/mock-data.ts:47 | the initial dataset has 120 readings, with ids 1..120 in order |
| RealtimeFeed.RetainKeepsNewest | src/hooks/use-realtime-speed-data.ts:41-44 | for maxDataPoints ≥ 1 the kept window has length min(n, maxDataPoints) and is the suffix of the input |
| RealtimeFeed.RetainZeroKeepsAll | src/hooks/use-realtime-speed-data.ts:42 | `slice(-0)` keeps everything, so a zero bound does not truncate |
| RealtimeFeed.AppendedEndsWithNew | src/hooks/use-realtime-speed-data.ts:38-45 | after a tick the window has length min(n + 1, maxDataPoints), ends with the new reading, and is the old window plus the reading when it was below the bound |
| RealtimeFeed.RetainAbsorbs | src/hooks/use-realtime-speed-data.ts:38-45 | truncating before appending more and truncating once at the end give the same window |
| RealtimeFeed.FeedKeepsNewest | src/hooks/use-realtime-speed-data.ts:38-45 | one or more ticks keep exactly the newest maxDataPoints of the seed followed by the new readings, in order |
| RealtimeFeed.Feeder.constructor | src/hooks/use-realtime-speed-data.ts:30-32 | the window starts as the seed, untruncated, and `lastId` starts at the seed's length |
| RealtimeFeed.Feeder.Tick | src/hooks/use-realtime-speed-data.ts:35-48 | a running tick appends the reading with id lastId + 1, keeps the newest maxDataPoints, and increments lastId by one; a stopped timer changes nothing |
| RealtimeFeed.Feeder.Reconfigure | src/hooks/use-realtime-speed-data.ts:51 | a new interval or bound replaces the timer but keeps the window and the id counter |
| RealtimeFeed.Feeder.Unmount | src/hooks/use-realtime-speed-data.ts:50 | unmounting clears the interval: no later tick changes the window |
| Page.FilteredData | src/app/page.tsx:40-57 | the filtered readings are no more than the window, and every one passes the sensor, lane and speed conditions |
| Page.FilteredMembership | src/app/page.tsx:41-56 | a reading is shown iff it is in the window and matches the sensor selection, the lane selection and (with alerts on) the thresholds |
| Page.FilteredIsSubsequence | src/app/page.tsx:41 | the filtered readings keep the window's order |
| Page.NoLanesShowsNothing | src/app/page.tsx:48 | with no lane selected nothing is shown, whatever the other settings |
| Page.SensorMatchIsSelected | src/app/page.tsx:43-45 | the page's sensor test is the settings panel's `isSensorSelected` on the sensor name, or "" when it is missing |
| Page.PresentNames | src/app/page.tsx:69-71 | the names kept are exactly the non-null sensor names of the window |
| Page.AvailableSensors | src/app/page.tsx:68-73 | the sensor list is strictly sorted (so duplicate-free) and holds exactly the non-null names present |
| Page.StatsOf | src/app/page.tsx:75-97 | no readings give all zeros; otherwise the total is the number of readings, the average is the rounded mean of the speeds, the maximum and minimum are the rounded extremes, and min ≤ avg ≤ max |
| Page.MaxDominates | src/app/page.tsx:87-93 | every shown reading's rounded speed is at most the reported maximum |
| Page.OnMaxSpeedAsWritten | src/app/page.tsx:103-112 | the effect as written: a record sets the flag and arms the timer but keeps the old maximum; otherwise the flag is kept, the maximum stored and the pending timer cleared |
| Page.TimerFires | src/app/page.tsx:108 | an armed timer clears the flag and disarms; a disarmed one changes nothing |
| Page.StuckBadgeAsWritten | src/app/page.tsx:103-112 | as written, maxima 200, 250, 150 leave the badge lit with no timer left to clear it |
| Page.LowerMaxFlaggedAsWritten | src/app/page.tsx:103-112 | as written, after a record of 250 a lower maximum of 240 is flagged as a new record |
| Page.OnMaxSpeed | src/app/page.tsx:100-112 | corrected step: flagged iff the maximum exceeds a positive previous maximum, the timer is armed iff flagged, and the maximum is always stored |
| Page.LatchInvariantKept | src/app/page.tsx:100-112 | the corrected step and the timer keep "flag set iff timer armed", and the timer leaves the stored maximum alone |
| Page.IntendedLatchSequences | src/app/page.tsx:100-112 | corrected: 250 after 200 is a record, a following 150 is not, and 240 after a record of 250 is not |
| Page.RecordBadge.constructor | src/app/page.tsx:100-101 | the badge starts off, with previous maximum 0 and no timer |
| Page.RecordBadge.MaxSpeedChanged | src/app/page.tsx:103-112 | the badge lights iff the new maximum exceeds a positive previous maximum |
| Page.RecordBadge.TimerElapsed | src/app/page.tsx:108 | when the timer fires the badge is off |
| Settings.DefaultsAre | src/types/settings.ts:30-46 | the defaults: interval 3000 ms, 120 points, every sensor, both lanes, every chart shown, min 80 < max 350, alerts off |
| Settings.MergeSetsPresentFields | src/contexts/settings-context.tsx:42-49 | `{...prev, ...patch}` sets each of the fifteen fields to the patch value when present and keeps the old value when absent; the empty patch changes nothing |
| Settings.MergeIdempotent | src/contexts/settings-context.tsx:45 | applying the same partial update twice equals applying it once |
| Settings.MergeCombine | src/contexts/settings-context.tsx:42-49 | two successive updates equal one update with the later patch winning field by field |
| Settings.MergeCombineSources | src/contexts/settings-context.tsx:45 | the same, for the data-source fields (sensors, lanes, interval, points) |
| Settings.MergeCombinePanels | src/contexts/settings-context.tsx:45 | the same, for the four basic chart flags |
| Settings.MergeCombineMorePanels | src/contexts/settings-context.tsx:45 | the same, for the four advanced chart flags |
| Settings.MergeCombineAlerts | src/contexts/settings-context.tsx:45 | the same, for the threshold and alert fields |
| Settings.Later | src/contexts/settings-context.tsx:45 | one field of two stacked spreads: present iff present in either, and the later value wins |
| Settings.LaterWins | src/contexts/settings-context.tsx:45 | reading a field through two spreads equals reading it through their combination |
| Settings.LoadSettings | src/contexts/settings-context.tsx:22-33 | from the start-up defaults: nothing stored or unparsable JSON keeps them; otherwise the stored fields over the defaults |
| Settings.LoadKeepsMissingDefaults | src/contexts/settings-context.tsx:27 | a field missing from storage takes its default (120 points, 3000 ms), a stored one wins, and an empty object loads the defaults |
| Settings.UseSettings | src/contexts/settings-context.tsx:62-68 | outside a provider the hook fails; inside it returns the provider's context |
| Settings.Provider.constructor | src/contexts/settings-context.tsx:18-19 | the provider starts on the defaults, not initialised, with nothing persisted |
| Settings.Provider.Initialize | src/contexts/settings-context.tsx:22-40 | start-up replaces the settings only with a parsed stored entry (the stored fields over the defaults) and otherwise keeps the current ones; it marks the provider initialised, and the save effect persists the settings |
| Settings.Provider.UpdateSettings | src/contexts/settings-context.tsx:36-49 | the settings become the merge; they are persisted once initialised, and storage is untouched before |
| Settings.Provider.ResetSettings | src/contexts/settings-context.tsx:36-53 | the settings become the defaults, which the save effect persists once initialised |
| SettingsPanel.Toggle | src/components/settings-panel.tsx:49-61 | the toggled item's membership flips, every other item's membership is unchanged, and an absent item is appended at the end |
| SettingsPanel.ToggleTwice | src/components/settings-panel.tsx:49-54 | toggling an absent item twice restores the list |
| SettingsPanel.ToggleNoDuplicates | src/components/settings-panel.tsx:49-61 | toggling keeps a duplicate-free selection duplicate-free |
| SettingsPanel.ToggleSensor | src/components/settings-panel.tsx:49-54 | only the sensor selection changes, and the sensor's membership flips |
| SettingsPanel.ToggleLane | src/components/settings-panel.tsx:56-61 | only the lane selection changes, and the lane's membership flips |
| SettingsPanel.ToggleFromEmptySelectsOne | src/components/settings-panel.tsx:50-52 | toggling from "all sensors" selects just that sensor, and then only it reads as selected |
| SettingsPanel.ShowAll | src/components/settings-panel.tsx:94 | "show all" empties the selection, after which every sensor reads as selected; nothing else changes |
| SettingsPanel.ToggleLastSensorSelectsAll | src/components/settings-panel.tsx:49-65 | untoggling the only selected sensor empties the selection, which means every sensor |
| SettingsPanel.ParsedOr | src/components/settings-panel.tsx:266 | `parseInt` with an `or` fallback: an unparsable input or 0 gives the fallback, any other number is kept |
| SettingsPanel.MinThreshold | src/components/settings-panel.tsx:264-267 | the minimum becomes 0 exactly when the input is unparsable or 0, and otherwise the parsed number; nothing else changes |
| SettingsPanel.MaxThreshold | src/components/settings-panel.tsx:282-285 | the maximum is never 0: an unparsable input or 0 gives 350, any other number is kept; nothing else changes |
| Validation.FieldIssues | src/lib/validation.ts:12-18 | one field reports an issue iff it is missing or fails its check, and then exactly one issue naming it |
| Validation.FieldsIssues | src/lib/validation.ts:12-18 | every reported issue carries the record's index and one of the checked fields |
| Validation.FieldsIssuesMembership | src/lib/validation.ts:12-18 | a field is reported iff it is among those checked and is missing or fails its check |
| Validation.RecordIssues | src/lib/validation.ts:12-18 | a non-object reports the whole record; every issue carries the record's index |
| Validation.RecordIssuesNameFailures | src/lib/validation.ts:12-18 | for an object, each of id, sensor_name, speed, lane and created_at is reported iff it fails its own constraint, and the whole record is not |
| Validation.RecordIssuesEmpty | src/lib/validation.ts:12-18 | an object has no issue iff all five fields pass |
| Validation.WireIssuesEmpty | src/lib/validation.ts:12-18 | no issue under the wire checks iff the record satisfies the API schema |
| Validation.InternalIssuesEmpty | src/lib/validation.ts:23-29 | no issue under the internal checks iff the record satisfies the internal schema |
| Validation.ValidateWire | src/lib/validation.ts:12-18 | success iff the schema holds; then a positive integer id, speed in [0, 500] and lane 0 or 1 equal to the JSON numbers, the name carried over from a JSON string and absent only for JSON null, and created_at the JSON string, an ISO date-time; failure carries at least one issue |
| Validation.ValidateInternal | src/lib/validation.ts:23-29 | success iff the internal schema holds; then the id, speed, name and created_at carried over as in the API schema, and the lane the `Lane` named by the JSON string; failure carries at least one issue |
| Validation.SchemasDifferOnlyInLane | src/lib/validation.ts:12-29 | with a valid lane of each kind, a record passes one schema iff it passes the other |
| Validation.ItemIssues | src/lib/validation.ts:34 | the first n elements report nothing iff each of them is valid |
| Validation.ValidateWireArray | src/lib/validation.ts:34 | an array succeeds iff every element is valid, yielding each element's own result in order; failure carries at least one issue |
| Validation.ArrayValidity | src/lib/validation.ts:34 | one invalid element fails the whole array, and the empty array succeeds |
| SpeedRecords.PerColumn.With | src/components/dashboard/speed-records.tsx:128 | `{...prev, [column]: value}` changes that column only |
| SpeedRecords.ActiveFiltersIffNotEmpty | src/components/dashboard/speed-records.tsx:210 | filters are active iff some column filter is non-empty |
| SpeedRecords.FilterStepIsFilter | src/components/dashboard/speed-records.tsx:145-175 | each guarded filter step is a plain filter by that column's test |
| SpeedRecords.FilterRowsIsOneFilter | src/components/dashboard/speed-records.tsx:145-175 | the chain of five column filters is one filter by their conjunction |
| SpeedRecords.FilterRowsSpec | src/components/dashboard/speed-records.tsx:145-175 | a row is kept iff it passes every column; the result keeps the data's order; empty filters keep every row |
| SpeedRecords.CaseRules | src/components/dashboard/speed-records.tsx:145-175 | the sensor filter ignores case ("pit" matches "Pit Entry"), and the id filter is a substring test ("8" does not match 7) |
| SpeedRecords.NextSort | src/components/dashboard/speed-records.tsx:119-124 | clicking a column sorts by it, descending iff it was already the ascending key |
| SpeedRecords.SortClicksCycle | src/components/dashboard/speed-records.tsx:119-124 | on a new column, clicks go ascending, descending, then ascending again |
| SpeedRecords.DescendingNegatesAscending | src/components/dashboard/speed-records.tsx:186-195 | with both values present, the descending comparison is the negated ascending one |
| SpeedRecords.PrecedesIsComparator | src/components/dashboard/speed-records.tsx:179-196 | the ordering used to sort agrees with the comparator's sign (missing values last) |
| SpeedRecords.CompareValuesAntisymmetric | src/components/dashboard/speed-records.tsx:186-193 | swapping the arguments negates the comparison |
| SpeedRecords.CompareValuesTransitive | src/components/dashboard/speed-records.tsx:186-193 | the comparison is transitive |
| SpeedRecords.PrecedesTotalPreorder | src/components/dashboard/speed-records.tsx:179-196 | the sort order is total and transitive in both directions, for every column |
| SpeedRecords.SortRows | src/components/dashboard/speed-records.tsx:177-197 | sorting permutes the rows; with no key they are left as they are |
| SpeedRecords.SortRowsOrdered | src/components/dashboard/speed-records.tsx:177-197 | sorted rows are ordered by the key and direction, and rows without a sensor name come last in both directions |
| SpeedRecords.FilteredAndSorted | src/components/dashboard/speed-records.tsx:145-200 | the rows shown before paging are exactly the rows that pass every filter, as the same multiset as the filtered rows; unsorted they keep the data order, sorted each row may come before every later one by the column comparator |
| SpeedRecords.TotalPages | src/components/dashboard/speed-records.tsx:203 | `ceil(n / k)`: the pages hold every row, the last page is not empty, and there are none for no rows |
| SpeedRecords.PageRows | src/components/dashboard/speed-records.tsx:204-207 | a page holds at most k rows, namely rows (p − 1)·k up to p·k, and a page that starts past the last row is empty |
| SpeedRecords.RowOnItsPage | src/components/dashboard/speed-records.tsx:203-207 | row q·k + m appears at position m of page q + 1, which exists |
| SpeedRecords.FiftyRowsThreePages | src/components/dashboard/speed-records.tsx:203-207 | 50 rows at 20 a page make 3 pages, the last with 10 rows, and page 4 is empty |
| SpeedRecords.PreviousPage | src/components/dashboard/speed-records.tsx:482 | "previous" steps back one from any page after the first and stays at 1 otherwise |
| SpeedRecords.NextPage | src/components/dashboard/speed-records.tsx:490 | "next" steps forward one before the last page and stays at the last page otherwise |
| SpeedRecords.ResizedWidth | src/components/dashboard/speed-records.tsx:92-93 | a new width is never below 50 and otherwise follows the mouse |
| SpeedRecords.RecordsTable.constructor | src/components/dashboard/speed-records.tsx:53-77 | unsorted, no filter, page 1, 20 rows a page, default widths, not resizing |
| SpeedRecords.RecordsTable.Visible | src/components/dashboard/speed-records.tsx:203-207 | the visible rows are the current page of the filtered and sorted rows: at most a page of them, each from the data and passing every filter |
| SpeedRecords.RecordsTable.HandleSort | src/components/dashboard/speed-records.tsx:119-124 | the sort configuration advances as `NextSort`; nothing else changes |
| SpeedRecords.RecordsTable.HandleFilterChange | src/components/dashboard/speed-records.tsx:127-130 | one column filter is set and the page resets to 1 |
| SpeedRecords.RecordsTable.ClearFilters | src/components/dashboard/speed-records.tsx:133-142 | all five filters become empty, none is active, and the page resets to 1 |
| SpeedRecords.RecordsTable.SetItemsPerPage | src/components/dashboard/speed-records.tsx:457-460 | the page size is set and the page resets to 1 |
| SpeedRecords.RecordsTable.Previous | src/components/dashboard/speed-records.tsx:482 | the page steps back, clamped at 1 |
| SpeedRecords.RecordsTable.Next | src/components/dashboard/speed-records.tsx:490 | the page steps forward, clamped at the current page count |
| SpeedRecords.RecordsTable.ResizeStart | src/components/dashboard/speed-records.tsx:80-87 | resizing starts on that column, remembering the mouse's x position and the column's width |
| SpeedRecords.RecordsTable.ResizeMove | src/components/dashboard/speed-records.tsx:89-99 | without a resize nothing changes; during one only the resized column's width changes, to at least 50 |
| SpeedRecords.RecordsTable.ResizeEnd | src/components/dashboard/speed-records.tsx:101-104 | resizing stops and the widths stay |
| SpeedChart.AllTimestamps | src/components/dashboard/speed-chart.tsx:20 | strictly increasing, and exactly the creation times present |
| SpeedChart.LaneSpeedAt | src/components/dashboard/speed-chart.tsx:23-28 | null iff the lane has no reading at that time; otherwise the speed of the last such reading (a `Map` keeps the last key) |
| SpeedChart.LaneSeries | src/components/dashboard/speed-chart.tsx:16-17 | one entry per timestamp: the lane's speed at that time or null |
| SpeedChart.SomeLaneAtEveryPoint | src/components/dashboard/speed-chart.tsx:20-28 | at every timestamp at least one lane has a speed |
| SpeedDistribution.BinOf | src/components/dashboard/speed-distribution.tsx:29-31 | a speed has a bin iff it lies in [0, 400), and then the 25 km/h bin that contains it |
| SpeedDistribution.BinKeys | src/components/dashboard/speed-distribution.tsx:22-25 | the 16 bins in ascending order |
| SpeedDistribution.Distribution | src/components/dashboard/speed-distribution.tsx:16-40 | 16 labels `i-(i+25)` in order, each with the number of readings in that bin |
| SpeedDistribution.BinsCoverData | src/components/dashboard/speed-distribution.tsx:28-34 | the bin counts plus the dropped readings equal the number of readings |
| SpeedDistribution.OutOfRangeDropped | src/components/dashboard/speed-distribution.tsx:29-31 | 400 and −0.5 have no bin; 0 falls in the first bin and 399.9 in the last |
| SpeedConsistency.RangeOf | src/components/dashboard/speed-consistency.tsx:46-52 | the five ranges <50, <100, <150, <200, ≥200 each hold exactly the speeds between their bounds |
| SpeedConsistency.RangeCounts | src/components/dashboard/speed-consistency.tsx:40-52 | five counts, each the number of speeds in its range |
| SpeedConsistency.SortedSpeeds | src/components/dashboard/speed-consistency.tsx:27 | the sorted speeds are a permutation of the readings' speeds |
| SpeedConsistency.SortedSpeedsAscending | src/components/dashboard/speed-consistency.tsx:27 | the sorted speeds are ascending |
| SpeedConsistency.CalculateConsistency | src/components/dashboard/speed-consistency.tsx:15-62 | no data gives zeros and no ranges; otherwise the rounded mean, the median at index ⌊n/2⌋, the rounded variance and the range counts |
| SpeedConsistency.RangesCoverSpeeds | src/components/dashboard/speed-consistency.tsx:46-52 | the five range counts add up to the number of readings |
| SpeedConsistency.CentralValuesBetween | src/components/dashboard/speed-consistency.tsx:28-33 | the median and the mean lie between the smallest and largest speed, and the variance is non-negative |
| SpeedConsistency.ConsistencyLevel | src/components/dashboard/speed-consistency.tsx:67-72 | very consistent below 10, consistent below 20, moderate below 30, variable from 30 on |
| SpeedConsistency.LevelMonotone | src/components/dashboard/speed-consistency.tsx:67-72 | a larger coefficient of variation never gives a more consistent level |
| TimePeriod.PeriodOf | src/components/dashboard/time-period-analysis.tsx:14-19 | morning iff 6 ≤ h < 12, afternoon iff 12 ≤ h < 18, evening iff 18 ≤ h < 22, night otherwise |
| TimePeriod.PeriodStatOf | src/components/dashboard/time-period-analysis.tsx:41-59 | an empty period gives zeros; otherwise its count, the rounded mean and rounded maximum of its speeds, with the average no larger than the maximum |
| TimePeriod.PeriodStats | src/components/dashboard/time-period-analysis.tsx:22-60 | the four periods in fixed order, each with its count, zeros when empty, the rounded mean and maximum otherwise; the counts add up to the number of readings |
| TimePeriod.PeriodCountsCover | src/components/dashboard/time-period-analysis.tsx:22-35 | every reading is counted in exactly one period |
| TimePeriod.MostActive | src/components/dashboard/time-period-analysis.tsx:264-266 | the result has the largest count, and it is the first period with that count |
| TimePeriod.TimePeriodAnalysis | src/components/dashboard/time-period-analysis.tsx:246-266 | a placeholder iff there is no data; otherwise the four periods in order, each with its reading count and its rounded mean and maximum (zeros when empty), and the most active period is the first with the largest count, which is positive |
| TopSensors.StatOf | src/components/dashboard/top-sensors.tsx:29-41 | a sensor's count, its rounded mean, max and min, with min ≤ avg ≤ max |
| TopSensors.SensorStats | src/components/dashboard/top-sensors.tsx:14-41 | one entry per sensor in first-appearance order, with its count and rounded mean, max and min |
| TopSensors.StatsBySensor | src/components/dashboard/top-sensors.tsx:14-41 | one statistic per distinct sensor, in first-appearance order |
| TopSensors.MoreActiveTotal | src/components/dashboard/top-sensors.tsx:44 | "more active" is a total preorder, so the sort is well defined |
| TopSensors.Top | src/components/dashboard/top-sensors.tsx:44 | at most five entries, the first ones of the sort by count |
| TopSensors.TopIsMostActive | src/components/dashboard/top-sensors.tsx:44 | the list is ordered by count, drawn from the sensors, and every sensor left out has no more readings than any shown |
| TopSensors.TopSensorsView | src/components/dashboard/top-sensors.tsx:44-62 | a placeholder iff there is no data; otherwise the first five of the per-sensor statistics sorted by count, one to five of them |
| HourlyTrend.HourLabel | src/components/dashboard/hourly-trend.tsx:18 | a two-digit hour followed by ":00" |
| HourlyTrend.HourLabelOrder | src/components/dashboard/hourly-trend.tsx:18-28 | sorting the labels as strings sorts the hours numerically, and labels are equal iff hours are |
| HourlyTrend.HourlyTrend | src/components/dashboard/hourly-trend.tsx:17-37 | the hours present, strictly sorted, each aligned with its count and rounded mean speed |
| HourlyTrend.HourlyCountsCover | src/components/dashboard/hourly-trend.tsx:17-37 | the hourly counts add up to the number of readings |
| HourlyTrend.DaysFoldTogether | src/components/dashboard/hourly-trend.tsx:18 | readings whole days apart fall in the same hour bucket |
| ActivityHeatmap.ZeroMatrix | src/components/dashboard/activity-heatmap.tsx:21-28 | one cell per sensor and hour, each 0 |
| ActivityHeatmap.FillMatrix | src/components/dashboard/activity-heatmap.tsx:31-37 | each cell grows by the number of readings with that sensor and hour; no cell is added |
| ActivityHeatmap.GuardNeverSkips | src/components/dashboard/activity-heatmap.tsx:31-37 | every reading's sensor and hour are among the matrix keys, so the guard skips nothing |
| ActivityHeatmap.NoKeysNoData | src/components/dashboard/activity-heatmap.tsx:17-37 | without sensors or without hours there are no readings |
| ActivityHeatmap.Row | src/components/dashboard/activity-heatmap.tsx:42-45 | one hour's row visits every sensor index in order |
| ActivityHeatmap.IndexGrid | src/components/dashboard/activity-heatmap.tsx:40-46 | hours × sensors index pairs, each valid pair once |
| ActivityHeatmap.GridHourMajor | src/components/dashboard/activity-heatmap.tsx:40-46 | the pairs are visited hour-major, then by sensor |
| ActivityHeatmap.Flatten | src/components/dashboard/activity-heatmap.tsx:40-46 | one `[hourIdx, sensorIdx, value]` cell per grid pair, in grid order |
| ActivityHeatmap.MaxValue | src/components/dashboard/activity-heatmap.tsx:49 | the largest cell value, which some cell has; none for no cells |
| ActivityHeatmap.SumValuesIsSumCounts | src/components/dashboard/activity-heatmap.tsx:40-46 | the cell values add up to the counts of their keys |
| ActivityHeatmap.GridPairs | src/components/dashboard/activity-heatmap.tsx:40-46 | the (sensor, hour) key of each grid cell |
| ActivityHeatmap.GridPairsDistinct | src/components/dashboard/activity-heatmap.tsx:40-46 | distinct sensors and hours give distinct cell keys |
| ActivityHeatmap.GridPairsComplete | src/components/dashboard/activity-heatmap.tsx:40-46 | every (sensor, hour) pair has a cell |
| ActivityHeatmap.GridCoversData | src/components/dashboard/activity-heatmap.tsx:31-46 | when every reading's key is in the grid, the cell values add up to the number of readings |
| ActivityHeatmap.CountCells | src/components/dashboard/activity-heatmap.tsx:21-46 | one cell per hour and sensor, in hour-major order, each with its sensor-and-hour count, adding up to the number of readings |
| ActivityHeatmap.ActivityHeatmap | src/components/dashboard/activity-heatmap.tsx:17-49 | distinct sensors in first-appearance order, strictly sorted hours, the counted cells adding up to the data, and the maximum value (none without data) |
| SensorStats.SensorStatsOf | src/components/dashboard/sensor-stats.tsx:16-31 | the sensors in first-appearance order, each aligned with its count and rounded mean |
| SensorStats.SensorStatsProperties | src/components/dashboard/sensor-stats.tsx:16-31 | the counts add up to the number of readings, and each rounded mean lies between the rounded min and max |
| SensorStats.UnnamedCountedAsUnknown | src/components/dashboard/sensor-stats.tsx:17 | a reading without a name is counted under "Unknown" |
| AverageSpeed.AccumulateTotals | src/components/dashboard/average-speed-by-sensor.tsx:16-24 | each sensor's total is the sum of its speeds and its count the number of its readings, in first-appearance order |
| AverageSpeed.AddReading | src/components/dashboard/average-speed-by-sensor.tsx:17-23 | one reading adds its sensor's total with its speed and one count (starting from its speed and 1 when the sensor is new), and leaves the other sensors alone |
| AverageSpeed.TotalsStep | src/components/dashboard/average-speed-by-sensor.tsx:16-24 | one reduce step keeps every total and count equal to those of the prefix read so far |
| AverageSpeed.TotalsSnoc | src/components/dashboard/average-speed-by-sensor.tsx:21-22 | one more reading adds its speed and one to its own sensor only |
| AverageSpeed.AverageSpeedBySensor | src/components/dashboard/average-speed-by-sensor.tsx:16-29 | each sensor's average is the rounded mean of its speeds (total / count) |
| AverageSpeed.CountsAddUp | src/components/dashboard/average-speed-by-sensor.tsx:16-24 | the counts add up to the number of readings |
| Grouping.SpeedsWithKey | src/components/dashboard/time-period-analysis.tsx:32 | a bucket has one speed per reading with that key |
| Grouping.KeysOf | src/components/dashboard/sensor-stats.tsx:26 | the keys of a reduce accumulator are distinct |
| Grouping.KeysOfMembership | src/components/dashboard/sensor-stats.tsx:16-26 | a key is present iff some reading has it |
| Grouping.KeysOfSnoc | src/components/dashboard/sensor-stats.tsx:18-20 | a new key is appended at the end; a known one keeps its place |
| Grouping.GroupSpeeds | src/components/dashboard/time-period-analysis.tsx:22-35 | the reduce into buckets: keys in first-appearance order, each bucket with its speeds and count |
| Grouping.AddToBucket | src/components/dashboard/time-period-analysis.tsx:26-33 | one reading appends its speed to its key's bucket and counts it (a new bucket holds just that speed and a count of 1), and leaves the other buckets alone |
| Grouping.KeysStep | src/components/dashboard/time-period-analysis.tsx:26-31 | one step keeps the key list in first-appearance order |
| Grouping.BucketsStep | src/components/dashboard/time-period-analysis.tsx:26-34 | one step keeps every bucket equal to that of the prefix read so far |
| Grouping.LookupBuckets | src/components/dashboard/time-period-analysis.tsx:40-42 | a key with no reading finds no bucket; any other finds its speeds and count |
| Grouping.BucketAverages | src/components/dashboard/hourly-trend.tsx:31-37 | each key's count and rounded mean, for keys that do occur |
| Grouping.BucketSnoc | src/components/dashboard/time-period-analysis.tsx:32-33 | one more reading adds its speed and one to its own bucket only |
| Grouping.ZeroWithoutKey | src/components/dashboard/time-period-analysis.tsx:42 | a key no reading has has no speeds and count 0 |
| Grouping.CountsCoverData | src/components/dashboard/top-sensors.tsx:14-26 | the bucket counts add up to the number of readings |
| Grouping.BucketNonEmpty | src/components/dashboard/top-sensors.tsx:29-30 | a key that occurs has at least one speed, so its mean is defined |
| Grouping.BucketSpeedsFromKey | src/components/dashboard/top-sensors.tsx:23 | a speed is in a bucket iff some reading with that key has it |
| Grouping.BucketMeanBetween | src/components/dashboard/top-sensors.tsx:30-32 | a bucket's mean lies between its min and max |
| LaneDistribution.LaneCounts | src/components/dashboard/lane-distribution.tsx:12-13 | the left and right counts are the sizes of the lane filters and add up to the number of readings |
| LaneDistribution.LaneCountsMembers | src/components/dashboard/lane-distribution.tsx:12-13 | the left filter holds exactly the Left readings and the right filter the Right ones |
| LaneDistribution.OneLaneOnly | src/components/dashboard/lane-distribution.tsx:12-13 | all-left data gives (n, 0) |
| LaneDistribution.LaneDistributionView | src/components/dashboard/lane-distribution.tsx:55-76 | a placeholder iff there is no data; otherwise two slices, left then right, whose values are the lane counts and add up to the data |
| LanePerformance.CalculateStats | src/components/dashboard/lane-performance.tsx:18-27 | an empty lane gives zeros; otherwise its count, its unrounded max and min, min ≤ max, and the rounded mean of its speeds between them |
| LanePerformance.LanePartition | src/components/dashboard/lane-performance.tsx:14-15 | the two lane filters are disjoint, cover every reading and add up to the data |
| LanePerformance.Series | src/components/dashboard/lane-performance.tsx:93 | the series lists avg, max, min, count in that order |
| LanePerformance.LanePerformanceView | src/components/dashboard/lane-performance.tsx:12-30 | a placeholder iff there is no data; otherwise the left and right series are the statistics of the readings in each lane, and their counts add up to the data |
| LocalIp.AcceptanceExamples | src/lib/get-local-ip.ts:53 | a LAN address is accepted, and 127.0.0.1 and 0.0.0.0 are rejected |
| LocalIp.AcceptCandidateIpMeans | src/lib/get-local-ip.ts:53 | an address is accepted exactly when it is not 127.0.0.1 and does not begin with "0." |
| LocalIp.ReplaceLocalhostWithIp | src/lib/get-local-ip.ts:72-76 | a URL with neither local name is unchanged; otherwise the first "localhost", if any, becomes the address, and then the first "127.0.0.1" of that result does |
| LocalIp.OnlyFirstOccurrence | src/lib/get-local-ip.ts:72-76 | only the first "localhost" is replaced |
| LocalIp.ShareableUrl | src/lib/get-local-ip.ts:82-103 | "" outside a browser; the URL unchanged when not local or when no address was found; otherwise the rewritten URL |
| Text.ReplaceFirst | src/lib/get-local-ip.ts:74-75 | string-pattern `replace` with a replacement free of `$` patterns: unchanged when the pattern is absent, else its first occurrence is replaced |
| Text.SortStrings | src/app/page.tsx:72 | `sort()` on strings: a permutation, ordered, and strictly ordered when the input is duplicate-free |
| Sorting.SortBySorted | src/components/dashboard/top-sensors.tsx:44 | sorting by a total preorder yields an ordered sequence |
| Sorting.SortByStable | src/components/dashboard/top-sensors.tsx:44 | the sort is stable: the elements tied with any value keep their input order |
| Sorting.PrefixPrecedesRest | src/components/dashboard/top-sensors.tsx:44 | a prefix of a sorted sequence is sorted and precedes everything after it |

## Left out

- I/O: the network layer, the server-sent-event feed, the API proxy routes,
  the logger, the environment configuration and the theme hook. The calls to
  `localStorage` are also out: storage is the `Stored` parameter and the
  `persisted` field.
- The WebRTC discovery in `getLocalIP`: its timers, callbacks and the regular
  expression over candidate strings. The address found is a parameter of
  `ShareableUrl`; only the acceptance test is modelled.
- React rendering, the ECharts option objects, icons, CSS and the UI-only
  components.
- Concurrency: the timer that re-arms whenever `lastId` changes, effect
  scheduling, and batched state updates. The models apply each update at
  once.
- The page calls the realtime hook with five arguments and destructures
  connection fields. The hook itself takes two and returns the array, and the
  hook is modelled as written. The live feed, batching and date-range modes
  the page expects do not exist in the hook.
- Randomness and the clock: `Math.random()` draws are the `Draw` parameter
  (four reals in [0, 1)), and `Date.now()` / `new Date()` are the `nowMs` /
  `now` parameters.
- SpeedData.HourOf: the browser's local time zone is not modelled; the hour
  is taken in UTC from the millisecond instant.
- Timestamps are integer milliseconds. The speed chart sorts ISO strings,
  and the records table sorts its created_at column with `localeCompare` on
  those strings (src/components/dashboard/speed-records.tsx:187); both are
  modelled as integer order (`SpeedRecords.CompareValues`), which agrees with
  the string order for same-format UTC strings only.
- Floating point: speeds are exact reals. `Math.round(x * 10) / 10` is
  `floor(10x + 1/2) / 10`, and binary rounding error is not modelled.
- SpeedConsistency.CalculateConsistency: the standard deviation and the
  coefficient of variation are left out because `Math.sqrt` is not modelled.
  ConsistencyLevel takes the coefficient as its input.
- Strings: `localeCompare` and `sort()` are code-unit lexicographic order
  (`Text.StrCompare`), and `toLowerCase` folds ASCII letters only.
- The records table's rendering of speeds and dates (`Number.toString`,
  date-fns `format`) is the `Render` parameter.
- Object key order is modelled as insertion order. JavaScript lists
  integer-like keys first, and the time periods, lanes and hours are fixed,
  but sensor names come from the data: the model assumes no sensor name is
  integer-like (a sensor named "7" would come first in `Object.keys` at
  src/components/dashboard/sensor-stats.tsx:26 and
  src/components/dashboard/average-speed-by-sensor.tsx:26, and in
  `Object.values` at src/components/dashboard/top-sensors.tsx:29).
- The model also assumes no sensor name is the name of an inherited object
  property such as "constructor": for those `!acc[name]` skips the
  initialisation, so src/components/dashboard/sensor-stats.tsx:21 and
  src/components/dashboard/top-sensors.tsx:23 throw and
  src/components/dashboard/average-speed-by-sensor.tsx:21 drops the sensor.
  Group maps here start every new key empty.
- SpeedRecords.SortRows: the source's comparator returns 1 when both values
  are null, which is inconsistent. The model treats two missing names as
  equal and sorts them stably, after every present name.
- Validation.ValidateWire: the content of Zod's error messages is not
  modelled (an issue names only the record index and the field). The ISO
  date-time check is syntactic: calendar validity and time-zone offsets are
  not checked.
- Validation.ValidateWire: the throwing `validate*` variants are the failure
  case of the same `Result`. An exception is not modelled separately.
- ActivityHeatmap.ActivityHeatmap: the nested `Record<sensor, Record<hour, n>>`
  is a map keyed by (sensor, hour) pairs. `Math.max()` of no cells (-Infinity
  in the source) is `None`.
- The health-check schema (src/lib/validation.ts:39-43, 88-90) is not part of
  this model; no modelled component uses it.
- Settings.Provider.Initialize: the stored text is modelled as already
  parsed into a typed partial (`Stored.Parsed` holding a `SettingsPatch`).
  The source spreads whatever `JSON.parse` returns
  (src/contexts/settings-context.tsx:26-27): `null` or a number adds
  nothing, an array or a string adds index keys, and fields of the wrong
  type are taken as they are. None of these is modelled.
- Text.ReplaceFirst: `String.prototype.replace` expands `$&`, `$$`, `` $` ``
  and `$'` in its replacement text; the model inserts the replacement
  literally. The only replacement passed in the source is an address that
  src/lib/get-local-ip.ts:48 matched as digits and dots, which holds no `$`.
- The settings test that expects the storage key to be removed after a reset
  is not modelled. The code never removes it; the save effect writes the
  defaults back.
- RealtimeFeed.Feeder.Reconfigure: the effect re-running on a new `lastId`
  (clearing and re-creating the interval) does not change the window, so
  each tick is modelled directly.

## Findings

| source | as written | input that shows it | evidently intended | confidence | as-written member | corrected member |
|---|---|---|---|---|---|---|
| src/app/page.tsx:103-112 | on a record the effect sets the flag and arms a 3 s timer but returns before storing the new maximum; the next change of maximum runs the cleanup, which cancels that timer without clearing the flag | maxima 200, 250, 150: the badge stays lit for good. Maxima 200, 250, timer, 240: 240 is flagged as a new record | the flag is cleared by its own timer, and every maximum seen becomes the previous maximum, so a rise above the previous window maximum is flagged once (maxima 200, 250, 150, 200 flag 250 and the last 200) and the badge is cleared by its own timer | not executed | Page.OnMaxSpeedAsWritten, Page.StuckBadgeAsWritten, Page.LowerMaxFlaggedAsWritten | Page.OnMaxSpeed, Page.LatchInvariantKept, Page.IntendedLatchSequences, Page.RecordBadge.MaxSpeedChanged |
