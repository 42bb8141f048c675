# F1 race strategy assistant — a Dafny model of its pure core

The application lets a user set up a race scenario (track, weather, lap count
and starting grid), asks an external language model for two pit-stop
strategies, a telemetry trace and a lap-by-lap simulation, and shows them. The
pure logic around those replies is modelled and verified here:

- **Strategy auditor** (`Auditor`, `analyzeStrategyForWarnings` in `App.tsx`).
  A rule-based check of both strategy plans:
  - tyre/weather mismatch;
  - over-long Soft and Medium stints, measured against 35% and 60% of the race
    distance, with floors of 15 and 25 laps;
  - a telemetry projection: the lead driver's tyre wear, extrapolated over each
    plan's first stint.

  The warnings are de-duplicated in first-occurrence order. The two places
  where the source throws a `TypeError` are modelled as failures. One is
  telemetry without a starting grid. The other is a plan with no stints once a
  wear trend exists.
- **Saved scenarios** (`SavedScenarios`): saving the active scenario under a
  time-stamped id, loading it by id, and deleting it by id. The clock reading
  is a parameter.
- **Custom scenario form** (`ScenarioForm`):
  - the default grid;
  - editing one grid slot;
  - validation: the track is not blank, the laps parse to a number in 20..100,
    and no driver name is blank;
  - building the scenario on submit, with rain tyres offered exactly when the
    weather mentions rain.
- **Race view** (`RaceStats`, `DriverNames`):
  - event row styles by severity;
  - the per-driver statistics table: pit stops, overtakes, DRS uses, final
    position, fastest lap;
  - the table's sort order and the header click that toggles it;
  - the driver-name pattern `[A-Z]\.\s[A-Z][a-z]+`, modelled exactly: leftmost
    match, greedy `+`, and the `g` flag resuming after each match.
- **Telemetry chart** (`TelemetryChart`):
  - the pivot of samples into one row per lap, keyed by driver surname and
    metric, with rows ascending by lap;
  - the lines drawn for the visible metrics;
  - the colour cycle;
  - the metric check-boxes and legend clicks, both set toggles.
- **Team table** (`Teams`): the 2026 teams, the lookup of a driver's team, and
  the driver's team colour.
- **Strategy timeline** (`Timeline`):
  - the compound display mapping;
  - the one-letter label;
  - stint bar widths and pit-marker positions, as percentages of the race.

Shared pieces:
- `Types` holds the records of `types.ts`.
- `Strings` holds the JavaScript string built-ins the code relies on:
  - `toLowerCase` on ASCII letters;
  - `includes`;
  - `trim`, with the ECMAScript white-space set;
  - integer printing;
  - `parseInt(s, 10)`.
- `Seqs` holds `[...new Set(xs)]` as `Dedup`, and `map`.
- `Sorting` is the stable `Array.prototype.sort` with a comparator, modelled as
  a stable insertion sort.

Notes on the model:
- **Telemetry example.** `lapsDriven = last.lap - first.lap + 1` counts both
  end laps. Samples at laps 1 and 10 with 5% and 41% wear therefore give 3.6%
  per lap and a 95% projection for a 25-lap first stint
  (`Auditor.ExampleTrend`, `Auditor.ExampleProjection`).
- **Warning order.** `new Set` keeps first-insertion order, so the returned
  messages come in the order their warnings were first pushed
  (`Auditor.AnalyzeStrategyForWarnings`).

## Model

| member | source | states |
|---|---|---|
| Auditor.SoftThreshold | App.tsx:42 | The Soft limit is at least 15. It is 35% of the race laps rounded down whenever that is larger. |
| Auditor.MediumThreshold | App.tsx:48 | The Medium limit is at least 25. It is 60% of the race laps rounded down whenever that is larger. |
| Auditor.WeatherWarning | App.tsx:33-39 | At most one weather warning per stint. It is raised exactly when "it rains" and "the lower-cased compound is intermediate or wet" disagree. It is the slick warning exactly when it rains, and it carries the plan name and the compound as written. |
| Auditor.StintsWarningsMembers | App.tsx:26-53 | `checkPlan` raises a warning exactly when one of the plan's stints raises it. |
| Auditor.PlannedMembers | App.tsx:55-56 | The stint checks raise exactly what some stint of a present plan raises. An absent plan contributes nothing. |
| Auditor.LeadSamplesMembers | App.tsx:60-61 | The lead samples are exactly the samples of `startingGrid[0]`'s driver on a positive lap. |
| Auditor.SortedLeadEnds | App.tsx:61-67 | After the stable sort by lap, the first sample is the earliest of the lowest lap and the last is the latest of the highest lap. The lap span `lapsDriven` is therefore at least 1. |
| Auditor.WearTrendSkippedIff | App.tsx:59-71 | With telemetry and a grid, the projection is skipped exactly when the lead driver has fewer than two samples or the wear did not grow. The `lapsDriven > 0` test never decides anything. |
| Auditor.WearTrendValues | App.tsx:63-73 | A trend is read off the first and last sorted samples: at least two samples, growing wear, the last lap and wear, and the first sample's compound. |
| Auditor.TrendFromEndsValues | App.tsx:67-73 | Wear per lap times the laps counted from one equals the wear gained, and it is positive. |
| Auditor.FirstStintWarning | App.tsx:75-85 | Reading a missing first stint fails. Otherwise a warning is made exactly when the first stint's compound equals the starting compound and its projected wear exceeds 90%. There is at most one, for this plan, and it carries the projected wear. |
| Auditor.AnalyzeStrategyForWarnings | App.tsx:18-95 | It fails exactly when pushing fails. The result has no duplicates, every pushed warning's message is in it, and every message in it comes from a pushed warning. The messages are in the order of their first occurrence among the pushed messages. |
| Auditor.PushedFailureIff | App.tsx:59-77 | The source throws exactly when there is telemetry and either no starting grid, or a wear trend and a present plan without stints. |
| Auditor.SlickInRainIff | App.tsx:27-36 | A slick-in-rain warning for plan `n` and compound `c` is pushed exactly when it rains, `c` is not a rain tyre, and some stint of `n` uses `c`. |
| Auditor.WetInDryIff | App.tsx:27-39 | A wet-in-dry warning is pushed exactly when it is dry, `c` is a rain tyre, and some stint of `n` uses `c`. |
| Auditor.LongSoftIff | App.tsx:30-45 | A long-Soft warning of `len` laps is pushed exactly when some stint of `n` is Soft in any letter case, lasts `len` laps, and `len` exceeds the threshold. |
| Auditor.LongMediumIff | App.tsx:30-51 | The same for Medium stints against the Medium threshold. |
| Auditor.KindFromPlanned | App.tsx:26-56 | A stint-level warning is in the pushed list exactly when some stint of a present plan raises it. |
| Auditor.TelemetryWearIff | App.tsx:71-88 | A projection warning is pushed exactly when there is a wear trend and a present plan's first stint has exactly the starting compound and projects more than 90%. |
| Auditor.SoftStintExample | App.tsx:42-45 | In a dry 50-lap race the Soft limit is 17. An 18-lap Soft stint warns and a 17-lap one does not. |
| Auditor.MediumStintExample | App.tsx:48-51 | In a dry 50-lap race the Medium limit is 30. A 31-lap Medium stint warns and a 30-lap one does not. |
| Auditor.TwoSamplesSorted | App.tsx:61 | Two lead samples recorded out of lap order are sorted into lap order. |
| Auditor.TrendOfTwo | App.tsx:63-73 | Exactly two sorted samples with growing wear give the trend read off them. |
| Auditor.ExampleTrend | App.tsx:63-73 | Samples (lap 10, 41%) and (lap 1, 5%) on Mediums give 3.6% per lap. |
| Auditor.ExampleProjection | App.tsx:75-84 | With that trend, a Medium stint over laps 1–25 projects 95% and warns. A Hard first stint is not compared. |
| Auditor.NoPlansNoWarnings | App.tsx:55-56 | With neither plan present the result is empty, whenever the source does not throw. |
| Auditor.RenderLongStintInjective | App.tsx:44 | Long-stint messages of one plan tell different stint lengths apart. |
| Seqs.Dedup | App.tsx:94 | `[...new Set(xs)]`: no duplicates, the same members, in first-occurrence order. |
| Seqs.DedupOfNoDup | App.tsx:94 | De-duplicating a sequence that has no duplicates changes nothing. |
| SavedScenarios.ScenarioIdInjective | App.tsx:220 | Ids taken at different clock readings differ. |
| SavedScenarios.ScenarioNameLaps | App.tsx:221 | The lap count can be read back from the saved name between ", " and " Laps)". |
| SavedScenarios.SaveScenario | App.tsx:212-223 | Saving appends exactly one entry, with the time-stamped id and the "`track` (`weather`, `laps` Laps)" name, and leaves the old entries unchanged. Without an active scenario it fails. |
| SavedScenarios.DeleteScenario | App.tsx:245 | Deleting keeps exactly the entries whose id differs, and no entry with that id remains. |
| SavedScenarios.DeleteConcat | App.tsx:245 | Deleting from a concatenation concatenates the deletions, so the kept entries stay in order. |
| SavedScenarios.DeleteAbsent | App.tsx:245 | Deleting an id that is not present changes nothing. |
| SavedScenarios.DeleteIdempotent | App.tsx:245 | Deleting twice is deleting once. |
| SavedScenarios.DeleteAfterSave | App.tsx:218-245 | Saving at a fresh clock reading and then deleting that id gives the list back. |
| SavedScenarios.FindScenario | App.tsx:233 | Loading finds the first entry with the id, or nothing exactly when no entry has it. |
| SavedScenarios.FindAfterSave | App.tsx:218-233 | A scenario just saved is found by its id. |
| ScenarioForm.DefaultGridShape | components/CustomScenarioForm.tsx:13-24 | The default grid has 20 entries, with positions 1..20 in order. |
| ScenarioForm.HandleGridChange | components/CustomScenarioForm.tsx:27-31 | Only the driver name at `index` changes. Length, positions and the other slots stay the same. An index outside the grid fails. |
| ScenarioForm.SharedGridChange | components/CustomScenarioForm.tsx:27-31 | As written: the array is copied but keeps the same entry references, and the edited entry is overwritten in place. The store keeps its size. |
| ScenarioForm.CopiedGridChange | components/CustomScenarioForm.tsx:27-31 | The corrected edit: the old entries stay untouched, the edited slot points at one new entry, and distinct references stay distinct. |
| ScenarioForm.GridChangesAgreeOnForm | components/CustomScenarioForm.tsx:27-31 | Both edits show the form the grid `HandleGridChange` computes, while no entry sits in two slots. |
| ScenarioForm.SharedEditLeaks | components/CustomScenarioForm.tsx:27-31 | As written, any grid submitted earlier that holds the edited entry now carries the new name in that slot. |
| ScenarioForm.SubmittedLeadRenamed | components/CustomScenarioForm.tsx:27-31 | Submitting a one-driver grid and then typing another name into P1 renames the submitted scenario's lead driver. |
| ScenarioForm.CopiedEditKeepsSubmitted | components/CustomScenarioForm.tsx:27-31 | With the copy, every grid submitted earlier keeps its entries. |
| ScenarioForm.GridChangeUndo | components/CustomScenarioForm.tsx:27-31 | Typing the old name back restores the grid, and the last of two edits to one slot wins. |
| ScenarioForm.Validate | components/CustomScenarioForm.tsx:33-48 | The track error is present exactly when the track is blank. The laps error is present exactly when the laps do not parse to 20..100. The grid error is present exactly when some driver name is blank. No other key appears. |
| ScenarioForm.ValidIff | components/CustomScenarioForm.tsx:46-47 | The form is valid exactly when no field fails. |
| ScenarioForm.OfferedTires | components/CustomScenarioForm.tsx:53-55 | Exactly Soft, Medium and Hard in dry weather. In rainy weather, by the auditor's test, Intermediate and Wet follow them, and the list has five entries. |
| ScenarioForm.HandleSubmit | components/CustomScenarioForm.tsx:50-66 | A scenario is built exactly when the form is valid. It carries the typed track, weather and grid, the offered tyres, and the parsed laps. |
| ScenarioForm.SubmitWhenFilled | components/CustomScenarioForm.tsx:50-66 | A form filled correctly submits exactly the scenario built from it. |
| Strings.TrimEmptyIffBlank | components/CustomScenarioForm.tsx:35 | `trim` gives the empty string exactly when the text is all white space. |
| Strings.IntToStringRoundTrip | components/CustomScenarioForm.tsx:37 | `parseInt` reads back every printed integer. |
| Types.RainyAt | App.tsx:27 | Weather holding "rain" in any letter case at any offset is rainy ("Light Rain", "Scattered Rain"). |
| Types.RainyIff | App.tsx:27 | Weather is rainy exactly when four of its letters in a row spell "rain" in some letter case. |
| Strings.ContainsIff | App.tsx:27 | `includes` holds exactly when the text occurs at some offset. |
| Types.NotRainyWithoutR | App.tsx:27 | Weather text without an `r` in either case is never rainy. |
| RaceStats.SeverityClassesFacts | components/RaceSimulation.tsx:28-37 | Every row has the left border. The yellow border is for moderate events exactly, and the red border and the pulse for major events exactly. Only minor or unrated events get the transparent border. |
| DriverNames.FirstName | components/RaceSimulation.tsx:54-55 | No match exactly when the pattern can start nowhere. Otherwise the result is the name at the leftmost start, taken greedily. |
| DriverNames.NameAtIff | components/RaceSimulation.tsx:54 | A match sits at an offset exactly when the pattern can start there and the match is the greedy one. |
| DriverNames.FirstNameOfName | components/RaceSimulation.tsx:54 | A well-formed name on its own is found whole. |
| DriverNames.AllNames | components/RaceSimulation.tsx:44 | Every element has the pattern's shape. The list is empty exactly when a single search finds nothing. Otherwise it is the match at the leftmost start, followed by the matches found from the end of that match. |
| DriverNames.AllNamesFromStep | components/RaceSimulation.tsx:44 | From any offset, the `g` matches are the leftmost match after it, then the matches resumed at its end. |
| DriverNames.AllNamesHead | components/RaceSimulation.tsx:44 | The first of all the names is the one a single search finds. |
| RaceStats.AllEventsMembers | components/RaceSimulation.tsx:53 | An event is in `flatMap(l => l.events)` exactly when some lap has it. |
| RaceStats.FirstOfKind | components/RaceSimulation.tsx:53 | `find`: nothing exactly when no event is of the kind. Otherwise the first such event. |
| RaceStats.TallyEvents | components/RaceSimulation.tsx:58-69 | The nested loops count, for each of pit, overtake and DRS, the events across all laps of that kind whose description contains the driver's name. |
| RaceStats.TallyLap | components/RaceSimulation.tsx:62-68 | One lap's events add their counts to the running totals. |
| RaceStats.FinalPosition | components/RaceSimulation.tsx:70 | The position of the driver's first entry in the final lap, or 0 when there is none. |
| RaceStats.UnsortedStats | components/RaceSimulation.tsx:48-73 | An empty simulation gives no rows. Otherwise there is one row per final-lap entry, in order, built from that driver's counts, position and fastest-lap flag. |
| RaceStats.DriverStatsTable | components/RaceSimulation.tsx:75-87 | With a sort set, the rows are a permutation of the unsorted rows, ordered by the column in the chosen direction, with booleans compared as 0 and 1. Without one they are the unsorted rows. |
| RaceStats.TableDrivers | components/RaceSimulation.tsx:51-52 | Whatever the order, there is a row for a driver exactly when the driver is in the final running order. |
| RaceStats.RowsOfEntries | components/RaceSimulation.tsx:57-85 | Rows in any order, one per running-order entry: some row belongs to a driver exactly when some entry does. |
| RaceStats.CountOfIndices | components/RaceSimulation.tsx:61-69 | The running count equals the number of positions holding an event of the kind whose description contains the driver's name. |
| RaceStats.RowCountsCountEvents | components/RaceSimulation.tsx:57-72 | Each row's pit stops, overtakes and DRS uses are the numbers of events of that kind, over all laps, whose description names the row's driver. |
| RaceStats.FastestLapHolders | components/RaceSimulation.tsx:53-55 | No row holds the fastest lap when no name is extracted. With distinct driver names at most one row does. |
| RaceStats.RequestSort | components/RaceSimulation.tsx:90-96 | A header click sorts by that column. It is descending exactly when the table was sorted by that column ascending. |
| RaceStats.RequestSortAlternates | components/RaceSimulation.tsx:90-96 | Clicking the same header repeatedly alternates ascending and descending. |
| Sorting.SortBy | components/RaceSimulation.tsx:76-84 | The sort keeps the length and the multiset of elements, and the result is ordered by the key. |
| Sorting.SortByHead | components/RaceSimulation.tsx:76-84 | The stable sort starts with the earliest of the least elements. |
| Sorting.SortByLast | components/RaceSimulation.tsx:76-84 | The stable sort ends with the latest of the greatest elements. |
| TelemetryChart.MetricNameFacts | components/TelemetryChart.tsx:17-25 | The metric field names hold no underscore and are pairwise different. |
| TelemetryChart.MetricAxis | components/TelemetryChart.tsx:18-24 | Lap time has the left axis to itself. Every other metric uses the right one. |
| TelemetryChart.LastTokenFacts | components/TelemetryChart.tsx:37 | `split(' ').pop()` is the space-free end of the text. A space precedes it unless it is the whole text. |
| TelemetryChart.DriverKeySuffix | components/TelemetryChart.tsx:37 | The driver key ends the name. It is the whole name, or the non-empty word after its last space. |
| TelemetryChart.DriverKeyOfName | components/TelemetryChart.tsx:37 | A name "first last" with a space-free, non-empty last word is keyed by that word ("L. Norris" by "Norris"), and keying a key changes nothing. |
| TelemetryChart.FieldKeyInjective | components/TelemetryChart.tsx:40 | `key_metric` fields of different drivers or metrics never collide. |
| TelemetryChart.WriteFields | components/TelemetryChart.tsx:39-41 | One sample writes its seven readings under its driver's key and leaves every other field unchanged. |
| TelemetryChart.PivotLaps | components/TelemetryChart.tsx:32-35 | There is a row for a lap exactly when some sample is of that lap. |
| TelemetryChart.PivotLastWins | components/TelemetryChart.tsx:32-42 | A sample's readings are in its lap's row unless a later sample of the same lap and driver key overwrites them. |
| TelemetryChart.PivotFields | components/TelemetryChart.tsx:32-42 | A row holds exactly the fields that the samples of its lap write. |
| TelemetryChart.OverviewChartData | components/TelemetryChart.tsx:29-45 | The rows are strictly ascending by lap, with exactly one row per sample lap, and each row is the pivoted row of its lap. |
| TelemetryChart.RowsAscending | components/TelemetryChart.tsx:44 | Sorting rows with distinct laps leaves them strictly ascending. |
| TelemetryChart.ColorIndex | components/TelemetryChart.tsx:179 | The palette index is within the 20 colours, and it is the driver's own index for the first 20 drivers. |
| TelemetryChart.ColorIndexCycle | components/TelemetryChart.tsx:179 | Colours repeat every 20 drivers, and 20 drivers in a row all differ. |
| TelemetryChart.LineColor | components/TelemetryChart.tsx:10-15 | A line's colour is always a palette colour. |
| TelemetryChart.MetricLines | components/TelemetryChart.tsx:169-186 | One line per driver key, drawing `key_metric`, coloured by list position, and hidden exactly when its key is inactive. |
| TelemetryChart.LinesForDrawn | components/TelemetryChart.tsx:167-189 | A field is drawn exactly when its metric is visible and its driver key is listed. |
| TelemetryChart.ToggleMetric | components/TelemetryChart.tsx:95-105 | The clicked metric flips between shown and hidden. No other metric changes. |
| TelemetryChart.ToggleMetricRestoresLines | components/TelemetryChart.tsx:95-105 | Switching a metric off and on again draws the same lines. |
| TelemetryChart.HandleLegendClick | components/TelemetryChart.tsx:82-93 | The clicked line flips between shown and hidden. Every other line keeps its state. |
| TelemetryChart.LegendClickHides | components/TelemetryChart.tsx:82-93 | After a legend click the same lines are drawn in the same order. Only the clicked line changes its hidden state. |
| TelemetryChart.LinesSameShape | components/TelemetryChart.tsx:167-189 | The hidden set changes only the hidden flags of the drawn lines. |
| Teams.TeamTableShape | teamData.ts:9-76 | There are 11 teams. Each record key equals the team's name, and each team has two drivers and a colour. |
| Teams.TableDriversDistinct | teamData.ts:9-76 | No driver name appears twice in the table. |
| Teams.FindTeam | teamData.ts:79-86 | Nothing exactly when no team lists the driver. Otherwise the first team, in declaration order, whose drivers include the name. |
| Teams.FindOnlyTeam | teamData.ts:79-86 | When exactly one team lists the driver, the lookup returns that team. |
| Teams.TeamOfListedDriver | teamData.ts:79-86 | Every table driver is found in their own team. |
| Teams.ColorOr | teamData.ts:91 | `team?.color \|\| fallback` gives the fallback without a team and the team's colour when it is not empty. |
| Teams.ListedDriverColor | teamData.ts:89-92 | A table driver gets their own team's colour. |
| Teams.UnlistedDriverColor | teamData.ts:89-92 | A driver no team lists gets no team and the grey `#6B7280`. |
| Timeline.GetTireInfo | components/StrategyTimeline.tsx:9-27 | The compound is drawn as "Unknown" exactly when, lower-cased, it is none of soft, medium, hard, intermediate and wet. The text is black exactly for medium and hard. |
| Timeline.TireInfoCaseInsensitive | components/StrategyTimeline.tsx:10 | A compound draws the same in any letter case. |
| Timeline.ShortLabel | components/StrategyTimeline.tsx:46 | `charAt(0)`: the first character, or nothing for an empty name. |
| Timeline.ShortLabelsDistinct | components/StrategyTimeline.tsx:11-46 | Two compounds share their one-letter label exactly when they are drawn the same way. |
| Timeline.Percent | components/StrategyTimeline.tsx:36 | `(part / total) * 100` is defined exactly when the total is non-zero. It lies in 0..100 for a part within the total, and is 100 for the whole. |
| Timeline.PitMarkers | components/StrategyTimeline.tsx:51-55 | There are max(n−1, 0) markers for n stints. Marker i is at stint i's end lap, placed at endLap / totalLaps · 100. |
| Timeline.PrefixWidth | components/StrategyTimeline.tsx:36 | Chained bars from lap 1 reach exactly the last bar's end lap as a share of the race. |
| Timeline.WidthsFillBar | components/StrategyTimeline.tsx:35-36 | The widths of stints that cover laps 1..totalLaps sum to 100. |
| Timeline.PitMarkerAtBoundary | components/StrategyTimeline.tsx:51-55 | In a plan covering the race, each pit marker sits exactly where its stint's bar ends. |

## Findings

| source | as written | input that shows it | evidently intended | confidence | as-written member | corrected member |
|---|---|---|---|---|---|---|
| components/CustomScenarioForm.tsx:27-31 | `[...startingGrid]` copies the array but not its entries, and `newGrid[index].driver = driver` then writes into an entry object that the previous grid still holds. The array handed to `onSubmit` (line 62) becomes the active scenario (App.tsx:156), so the write reaches it. | Submit the form, then type another name into P1. The active scenario's `startingGrid[0].driver` changes with it. The auditor reads that name as the lead driver (App.tsx:60), and the next save stores it (App.tsx:219). | Copy the edited entry (`newGrid[index] = { ...newGrid[index], driver }`), so a submitted scenario keeps its grid | medium; not executed | ScenarioForm.SharedEditLeaks | ScenarioForm.CopiedEditKeepsSubmitted |

The rest of the model treats grids as values, which is the corrected behaviour: `ScenarioForm.HandleGridChange` is what `ScenarioForm.CopiedGridChange` shows the form (`ScenarioForm.GridChangesAgreeOnForm`).

## Left out

- React rendering, hooks, JSX, CSS animation, icons, the header, the scenario
  manager and the chat panel. They are presentation only. The class names and
  labels the logic chooses are modelled; the markup around them is not.
- Calls to the language model (`services/geminiService.ts`): the prompts,
  response schemas and JSON parsing. That code is external and is not part of
  this model. Its replies enter the model as values.
- The async chat flow and the loading and error flags of `App.tsx`. They are UI
  state around the calls.
- `localStorage` reads and writes, and `Date.now()`. The saved list is passed
  in and returned, and the clock reading is a parameter of `SaveScenario`.
- Floating point.
  - Lap counts and positions are unbounded integers; readings and percentages
    are exact reals.
  - `Math.floor(raceLaps * 0.35)` is modelled as the exact `raceLaps * 35 /
    100`. The two agree for the 20..100 laps the form accepts. The IEEE
    product first differs at 180 laps.
  - `startLapData.tireWear || 0` is the same as `tireWear` for any real.
- `projectedWear.toFixed(0)` is a function parameter of the auditor. Number
  formatting is not modelled.
- The comparison mode of the telemetry chart (two selected drivers) and the
  tooltip. The tooltip formats numbers with `toFixed`. Both are presentation.
- The event-hover highlight state. The names it highlights are modelled by
  `DriverNames.AllNames`; the hover state itself is UI.
- `TelemetryChart.Pivot` takes the driver-key function as a parameter. The
  chart uses it with `DriverKey`, as `OverviewChartData` does.
- Sorting.SortBy: its contract states ordering and permutation. Stability is
  proved only at the two ends (`Sorting.SortByHead`, `Sorting.SortByLast`),
  because those are all the auditor needs.
- RaceStats.FastestLapHolders: "at most one holder" needs distinct driver
  names in the final running order, because the source does not enforce it.
- Timeline.GetTireInfo: the exact class strings per compound are in the
  function body. The contract states the Unknown and text-colour split. It
  also states the short-label distinctness, through `ShortLabelsDistinct`.
- Sorting.TextLess: compares strings by Unicode code point, while JavaScript's
  `<` compares UTF-16 code units. The two orders differ only between a
  character above U+FFFF and one in U+E000–U+FFFF. Driver names never mix
  those.
