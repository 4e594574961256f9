# vizpendulum-nvim activity aggregation, modelled in Dafny

vizpendulum-nvim turns an editor heartbeat log into charts. Each CSV row records:

- whether the editor was active;
- the branch, working directory, file, file type and project;
- a timestamp.

The core of the tool is `ProjectTracker`, a single-owner object. It keeps four keyed tables, and each entry is created lazily on first sight:

- projects, each with its branches;
- per-project "previous row" state;
- per-file-type running totals with their last-seen time;
- per-day buckets, nested as project and then file type.

The tracker credits the time between consecutive heartbeats when the gap is positive and at most 120 seconds. It exports each table in first-insertion order.

Two smaller pieces consume the exported data:

- `fillMissingDailyMetrics` fills in zero days between the first and the last daily metric.
- `preparePieData` picks the five file types with the most time, largest first.

The project has eight modules, one per file:

- `Records` (records.dfy) holds the record shapes of ts/src/types.ts as datatypes. `TrackingData` is a class, because gap filling overwrites its `dailyMetrics` field in place.
- `Keys` (keys.dfy) holds distinct name lists, index lookup and sums.
- `TimePolicy` (time_policy.dfy) holds the gap rule: a gap is credited when it is positive and at most 120 s.
- `Daily` (daily.dfy) holds the nested day bucket as a value. It is credited as `updateDailyMetrics` does.
- `Tracker` (project_tracker.dfy) holds the class `ProjectTracker`. Its four `Map` fields are Dafny maps, each with a parallel sequence of keys that keeps first-insertion order. Its methods mutate these fields as the TypeScript methods do. The module also has:
  - `TrackerState`, `Step` and `Run`: the same row step as a value, and a fold over the rows. `ProcessRow` and `ParseData` are proved against them.
  - the lemmas about the whole run.
- `FillData` (fill_data.dfy) holds `FillMissingDailyMetrics`. It is a loop that builds the filled list and then overwrites `data.dailyMetrics`. It is proved equal to the function `Filled`, and the gap-filling properties are proved about `Filled`.
- `PieData` (pie_data.dfy) holds `PreparePieData` as a pure function: an insertion sort that is stable and puts the largest time first, then a cut to five.
- `Scenarios` (scenarios.dfy) states each expectation of ts/test/parseData.test.ts for the modelled driver. The names, branches and instants are generalised.

The per-row driver that calls the tracker is not in the repository's sources. ts/src/parseData.ts is a stub that only streams and logs rows. The model's `ProcessRow` is therefore a reconstruction, chosen so that every expectation in ts/test/parseData.test.ts holds. It behaves as follows:

- A row whose `active` text is not `"true"` changes nothing.
- A project's first row creates the project, its branch and its file type, credits nothing, and records the row as the project's previous row.
- A later row does the following, in order:
  1. It credits the project's gap to the day bucket of its date.
  2. It credits the file type with the gap since that file type was last seen, and moves its last-seen time to the row.
  3. It credits the project with the project's gap.
  4. It credits the branch with the gap since that branch's own last row.
  5. It advances the project's previous-row state.

Timestamps are a `Stamp`: the raw text, used for the date key, plus the instant in whole seconds when the text parses (`None` otherwise). An unparseable instant compares as false, so it credits nothing.

Calendar arithmetic in gap filling is abstracted by two function parameters:

- `dayOf` maps a date text to a day number;
- `dateOf` maps a day number to the date text.

The properties that need calendar behaviour assume only that `dayOf(dateOf(x)) == x` (`RoundTrips`). Where needed, they also assume that the input dates are canonical and strictly increasing.

## Model

| member | source | states |
|---|---|---|
| Tracker.GetDateKey | ts/src/ProjectTracker.ts:52-54 | the key is a prefix of the text and contains no space. It is either the whole text or followed by a space, i.e. the text before the first space |
| Tracker.DateKeyOfTimestamp | ts/src/ProjectTracker.ts:52-54 | "date clock" gives back the date, and a text without a space is its own key |
| Tracker.Export | ts/src/ProjectTracker.ts:99-105 | one value per key, in key-order position, each the map's value for that key |
| Tracker.ExportAfter | ts/src/ProjectTracker.ts:40-46 | `Map.set` on a known key replaces its value in place, and on a new key appends it last. The keys stay distinct |
| Tracker.WithBranch | ts/src/ProjectTracker.ts:21-28 | after a lookup the branch is present. Nothing changes when a branch of that exact name exists. Otherwise a zero branch is appended at the end. Names stay distinct |
| Tracker.CreditProject | ts/test/parseData.test.ts:57-70 | the project total rises by the project gap and the named branch by the branch gap. No other branch and no name changes |
| Tracker.RecordDayKeeps | ts/src/ProjectTracker.ts:56-97 | after recording a row every bucket is still balanced and stored under its date, and the day totals rise by exactly the positive part of the project diff |
| Tracker.FirstRowCreditsNothing | ts/test/parseData.test.ts:21-43 | a project's first row adds no time to the project or its branches, and leaves the file type as first seen |
| Tracker.StepKeepsBalance | ts/src/ProjectTracker.ts:74-87 | one row keeps every table well formed and adds the same amount, the project gap, to the project totals and to the day totals |
| Tracker.RunBalanced | ts/src/ProjectTracker.ts:74-87 | after any sequence of rows the day totals add up to the project totals |
| Tracker.RunSkipsInactive | ts/test/parseData.test.ts:21-36 | rows that are not active leave a new tracker empty |
| Tracker.RunKeys | ts/src/ProjectTracker.ts:10-38 | entries are created on first sight only: the projects and file types with entries are exactly those of the active rows |
| Tracker.KnownFileTypeStep | ts/test/parseData.test.ts:72-91 | a known file type is credited against its own last-seen time, whichever project saw it last. Its last-seen time moves to the row, and no other file type changes |
| Tracker.NewFileTypeStep | ts/src/ProjectTracker.ts:30-38 | a file type first seen on a later row starts at zero, last seen at the row, and is appended to the order |
| Tracker.NewBranchStep | ts/test/parseData.test.ts:57-70 | a branch first seen on a later row of a project is appended at zero and credited nothing, while the project still gets its gap. The branch's last time starts at the row |
| Tracker.ParseDataBalanced | ts/src/ProjectTracker.ts:99-112 | for any rows the exported daily totals sum to the exported project totals. Every exported bucket is balanced, and project and file-type names are not repeated |
| Tracker.FileTypeTotals | ts/src/ProjectTracker.ts:107-112 | one `{name, totalTime}` per file type, in first-seen order, each with that file type's running total |
| Tracker.ProjectTracker.constructor | ts/src/ProjectTracker.ts:4-8 | the four tables start empty, valid and balanced |
| Tracker.ProjectTracker.GetProject | ts/src/ProjectTracker.ts:10-19 | an unseen name gets `{name, [], 0}`, appended to the order. A known name returns the stored project and changes nothing. Totals are unchanged |
| Tracker.ProjectTracker.GetBranch | ts/src/ProjectTracker.ts:21-28 | returns the branch of that exact name, appending a zero branch when there is none. Branch names stay distinct and totals are unchanged |
| Tracker.ProjectTracker.GetFileType | ts/src/ProjectTracker.ts:30-38 | seeds `{0, timeStamp}` only on first sight, otherwise ignores the timestamp and returns the stored state |
| Tracker.ProjectTracker.SetFileType | ts/src/ProjectTracker.ts:40-42 | exactly one key is replaced (or appended); every other file type is unchanged |
| Tracker.ProjectTracker.SetPrevRow | ts/src/ProjectTracker.ts:44-46 | exactly one project's previous-row state is replaced; every other is unchanged |
| Tracker.ProjectTracker.GetPrevRow | ts/src/ProjectTracker.ts:48-50 | present exactly when the project's state has been set, and then it is that state |
| Tracker.ProjectTracker.UpdateDailyMetrics | ts/src/ProjectTracker.ts:56-97 | the row's date always has a bucket afterwards. A diff that is not positive changes nothing else. The buckets stay balanced, and the sum of day totals rises by the positive part of the diff |
| Tracker.ProjectTracker.GetAllProjects | ts/src/ProjectTracker.ts:99-101 | one project per key, in first-insertion order, each the stored project. It reads only, so two calls agree |
| Tracker.ProjectTracker.GetAllDailyMetrics | ts/src/ProjectTracker.ts:103-105 | one bucket per date, in first-seen order, each stored under its own date and balanced |
| Tracker.ProjectTracker.GetAllFileTypes | ts/src/ProjectTracker.ts:107-112 | one `{name, totalTime}` per file type, in first-seen order, with its running total |
| Tracker.ProjectTracker.ProcessRow | ts/test/parseData.test.ts:21-197 | one heartbeat changes the tracker exactly as the row step `Step` does, and keeps it valid and balanced |
| Tracker.ProjectTracker.CreditRow | ts/test/parseData.test.ts:57-91 | a later row credits the day, the file type (against its own last-seen time), the project and the branch (against its own last time). It then advances the project's state |
| Tracker.ParseData | ts/test/parseData.test.ts:21-197 | feeding the rows in order to a new tracker and exporting gives the projects, file types and daily metrics of `Run(rows)` |
| Daily.CreditFileTypesSpec | ts/src/ProjectTracker.ts:89-95 | a file type under a day's project is created at 0 and rises only by a positive amount. Every other file type is untouched, and names stay distinct |
| Daily.CreditDayProjectsSpec | ts/src/ProjectTracker.ts:78-87 | only the named project's day entry changes (created at 0 when new). The projects' day totals rise by exactly the diff, and names stay distinct |
| Daily.CreditDay | ts/src/ProjectTracker.ts:74-76 | the bucket keeps its date and its total rises by exactly the project diff |
| Daily.CreditKeepsDayOk | ts/src/ProjectTracker.ts:74-87 | a balanced bucket stays balanced: the day total equals the sum of its projects' totals |
| Daily.CreditDayGrows | ts/src/ProjectTracker.ts:73-96 | no daily figure decreases, and no entry is removed or reordered |
| TimePolicy.CreditedSeconds | ts/test/parseData.test.ts:45-55 | a gap is credited (and equals the difference) exactly when both instants parse and the difference is positive and at most 120 s. The credit never exceeds 120 |
| TimePolicy.ChainCreditWithinSpan | ts/test/parseData.test.ts:129-165 | a property of the gap rule on its own, not of the tracker: crediting each heartbeat of a time-ordered chain against its predecessor never totals more than the wall-clock span |
| FillData.MetricsByDate | ts/src/LineGraph/fillData.ts:12-14 | every input date is a key, and each entry is stored under its own date |
| FillData.MetricsByDateFrom | ts/src/LineGraph/fillData.ts:12-14 | every entry of the lookup table is one of the input metrics |
| FillData.LastOfDateWins | ts/src/LineGraph/fillData.ts:12-14 | among duplicate dates the later metric is the one kept |
| FillData.DayEntry | ts/src/LineGraph/fillData.ts:22-28 | an entry carries its day's date unless the lookup table holds a metric under that date. The metric-or-zero-day lookup itself is stated by `FillData.FilledAt` |
| FillData.FillRange | ts/src/LineGraph/fillData.ts:19-29 | `count` entries, entry i being day start + i's entry |
| FillData.Filled | ts/src/LineGraph/fillData.ts:6-20 | with s and e the first and last input days, the output has e - s + 1 entries when e >= s and none otherwise. Entry i carries day s + i's date |
| FillData.FilledDaysConsecutive | ts/src/LineGraph/fillData.ts:19-20 | output days are consecutive and strictly increasing from the first input day |
| FillData.FilledEntries | ts/src/LineGraph/fillData.ts:6-28 | every output entry lies within the first and last day, and is either an input metric or a zero day. Metrics outside that range are dropped |
| FillData.FilledAt | ts/src/LineGraph/fillData.ts:20-28 | output entry k is the metric recorded for day first + k, or a zero day with that date |
| FillData.FilledKeepsEachMetric | ts/src/LineGraph/fillData.ts:6-28 | with strictly increasing canonical dates every input metric appears unchanged, exactly once, at its own day |
| FillData.FilledKeepsTotal | ts/src/LineGraph/fillData.ts:6-28 | with strictly increasing canonical dates the sum of day totals is preserved |
| FillData.FillMissingDailyMetrics | ts/src/LineGraph/fillData.ts:5-33 | `data.dailyMetrics` is overwritten in place by the filled list, and the same object is returned. Projects and file types are not touched |
| PieData.ToItems | ts/src/fileTypeTime.ts:30-35 | one item per file type, in input order, with its name and total time |
| PieData.InsertPermutes | ts/src/fileTypeTime.ts:36 | inserting adds the item and loses nothing |
| PieData.SortByTime | ts/src/fileTypeTime.ts:36 | the sort is a permutation of its input |
| PieData.SortByTimeSorted | ts/src/fileTypeTime.ts:36 | the sort puts the largest time first (non-increasing times) |
| PieData.SortByTimeStable | ts/src/fileTypeTime.ts:36 | the sort is stable: the items of any one time keep their input order |
| PieData.PreparePieData | ts/src/fileTypeTime.ts:24-38 | the result has min(5, number of file types) items |
| PieData.PreparePieDataTopFive | ts/src/fileTypeTime.ts:30-37 | the result is sorted largest first and is a sub-multiset of the file types' items. No file type left out has more time than any shown |
| PieData.PrefixIsTop | ts/src/fileTypeTime.ts:37 | the first n items of a sorted list are a top-n selection |
| PieData.PreparePieDataStable | ts/src/fileTypeTime.ts:36-37 | the shown items of each time are the first items of that time in input order |
| Scenarios.BasicTimeTracking | ts/test/parseData.test.ts:21-43 | an inactive row then one minute gives one project, branch and file type, each at 60 |
| Scenarios.RespectsThreshold | ts/test/parseData.test.ts:45-55 | a five-minute gap credits the project nothing |
| Scenarios.BranchSwitching | ts/test/parseData.test.ts:57-70 | main, feature a minute later, main half a minute after that: two branches, main = 90 |
| Scenarios.MultipleFileTypes | ts/test/parseData.test.ts:72-91 | interleaved typescript and javascript rows give typescript 90 and javascript 60 |
| Scenarios.InvalidTime | ts/test/parseData.test.ts:93-102 | a row with an unreadable time still creates its project (one project, no time) |
| Scenarios.EmptyInput | ts/test/parseData.test.ts:104-111 | no rows give no projects, file types or days |
| Scenarios.TimePerDay | ts/test/parseData.test.ts:129-165 | two calendar days give buckets of 60 and 120, split the same way by project and file type |
| Scenarios.GapsOverThreshold | ts/test/parseData.test.ts:167-179 | after a five-minute gap only the following minute is credited to the day |
| Scenarios.MultipleProjectsPerDay | ts/test/parseData.test.ts:181-197 | a minute on each of two projects gives a 120 s day holding both, each with its file type at 60 |

## Left out

- CSV streaming from a fixed path and console logging (ts/src/parseData.ts) are I/O. The model takes the parsed rows as a sequence.
- Timestamp parsing with JavaScript `Date` is abstracted. A row's time is its text plus an optional whole-second instant. `NaN` arithmetic is modelled only by its effect: an unparseable time credits nothing.
- Times are unbounded naturals. The source's float `number` totals and any fractional-second differences are not modelled.
- The nested `projects` and `fileTypes` objects of a day bucket are modelled as association lists in insertion order. JavaScript lists integer-like keys (such as a project named "42") first in ascending order; that ordering is not modelled. Names equal to a property inherited from `Object.prototype` (such as "constructor", "toString" or "__proto__") are not modelled either: the source finds the inherited value instead of creating an entry. For a project name it then throws a TypeError after raising the day total. For a file-type name it stores a string instead of a number. The model creates and credits these names like any other.
- In `updateDailyMetrics` the source resets an existing file-type entry of 0 to 0. The model leaves it as it is, which is the same value.
- Exports are value snapshots. The source returns live `Project` objects that alias the tracker's state, and `getBranch` receives the project object; the model's `GetBranch` takes the project's name and updates the stored value.
- Tracker.ProjectTracker.ProcessRow: the row driver is a reconstruction (see above). It is not a translation of code in the repository.
- Scenarios: the test scenarios are stated for arbitrary names and instants with the tests' gaps, not for the literal CSV texts. Parsing those texts is outside the model.
- FillData.FillMissingDailyMetrics: two error paths of the source are not modelled. With no daily metrics the source throws a TypeError reading the first entry; the model requires a non-empty list, although the tracker yields an empty one when no project has a second active row. When the first or last date does not parse, `differenceInDays` gives `NaN`, the loop never runs and the result is empty; the model's `dayOf` is total, so it always gives a day number.
- FillData.Filled: `new Date`, date-fns `addDays`/`differenceInDays` and `toISOString` mix UTC and local time, so a daylight-saving change can shift a generated date or shorten the range by one day (`differenceInDays` counts full local days). The model uses day numbers through `dayOf`/`dateOf`, with only the round trip assumed. Calendar and time-zone behaviour is not modelled.
- PieData.PreparePieData: the `percentage` field is not modelled, and neither is its denominator (the total over all file types, which gives `NaN` when every total is 0). Both involve floating point.
- PieData.PreparePieData: the source sorts a fresh array, so `data.fileTypes` is not reordered. In the model this holds because the function only reads `data`; no separate lemma states it.
- Pie-chart and line-graph rendering are d3/SVG drawing and are not part of this model. This covers `generatePieChart`, `midAngle`, `calculateRadius` and ts/src/LineGraph/drawLineGraph.ts.
- The DOM context manager (ts/src/svgContextManager.ts) and the command-line entry points (ts/src/main.ts, ts/src/pieChart.ts) are not part of this model.
