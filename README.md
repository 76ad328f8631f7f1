# Fosse equipment monitor — a Dafny model of its analysis and client logic

Fosse collects CSV readings of chemical-plant equipment (flow rate, pressure,
temperature per row, labelled by equipment `Type`). A Django server stores the
uploads and summarises them. A React web client and two PyQt desktop clients
show, filter, analyse and export the data. This project models:

- **Server** (`backend/api/views.py`): the upload summary, retention of the
  five newest datasets, the dataset list, the authentication refusals and
  the "not found" answers (module `BackendViews`).
- **Analytics service** (`web/src/services/analyticsService.js`): row
  normalisation with `parseFloat`, per-parameter statistics, z-score
  anomalies sorted newest first, two-window trends and the real-time alert
  filter (modules `AnalyticsService`, `ZScore`, `Statistics`).
- **Analytics dashboard** (`web/src/components/AnalyticsDashboard.jsx`):
  filtering, the equipment list, chart data, the summary cards, the
  `statistics` memo and the anomaly timeline (module `Dashboard`).
- **Desktop clients**:
  - `desktop/app.py`: the Qt table with search and export, the
    `is_processing` guard, and the statistics, insights and recommendations
    tabs (modules `Desktop`, `DesktopApp`).
  - `desktop/app_working.py`: the data tab with its filters (module
    `DesktopAppWorking`).
- **Web client**:
  - Upload form validation (`UploadForm`).
  - Base-URL normalisation and request configurations (`Api`).
  - Compound and report filters and the saved-report store (`Reports`).
  - The global search box (`GlobalSearch`).

Numbers are Dafny reals. Nothing takes a square root: every test on a
standard deviation is stated on its square. For example, `|v - m| / std > t`
becomes `t < 0 || (v - m)^2 > t^2 * variance`, with `variance > 0` standing
for the `NaN` that a zero deviation produces in JavaScript. Clocks, the
network, files, Qt widgets and browser storage are parameters or fields:

- `now` and `today` are parameters.
- A request's outcome is the `outcome` parameter.
- Browser storage is the `ReportStore.reports` field.
- The `QTableWidget` is class `Desktop.Table`.

Shared helpers:

- `Seqs`: filter, take, subsequence, distinct and a sort by a total preorder.
- `Text`: ASCII lower-casing, substring search, suffix test and
  lexicographic order.
- `Wrappers`: `Option`.

## Model

| member | source | states |
|---|---|---|
| AnalyticsService.EquipmentLabel | web/src/services/analyticsService.js:104 | the label is never empty; a non-empty textual `Type` is the label; a missing, null or empty `Type` gives "Unknown" |
| AnalyticsService.EquipmentTypesFacts | web/src/services/analyticsService.js:104 | the equipment list has no duplicates, names exactly the row labels, and keeps the order of first appearance |
| AnalyticsService.PresentParameters | web/src/services/analyticsService.js:105-107 | a parameter is listed iff it is one of Flowrate/Pressure/Temperature and some row holds a non-null value for it |
| AnalyticsService.PresentParametersOrder | web/src/services/analyticsService.js:105-107 | the present parameters keep the fixed order of the three names |
| AnalyticsService.ParseDecimalReadsWholeNumber | web/src/services/analyticsService.js:120-123 | `parseFloat` of a whole number's decimal text, signed or not and followed by a non-digit, gives back that number; zero is kept |
| AnalyticsService.ReadingsOf | web/src/services/analyticsService.js:119-124 | a lower-case key is present iff some parameter with that lower-case name parses, and its value is what that parameter parsed to |
| AnalyticsService.NormalizedShape | web/src/services/analyticsService.js:110-128 | one record per row in input order; its index is its position, its equipment is the row's label, and timestamps strictly increase and end a minute before `now` |
| AnalyticsService.ValuesOfCount | web/src/services/analyticsService.js:154 | a parameter has as many values as there are records carrying it |
| AnalyticsService.CalculateRealStatistics | web/src/services/analyticsService.js:150-170 | the loop builds the statistics map of the specification |
| AnalyticsService.StatisticsEntries | web/src/services/analyticsService.js:153-168 | an entry exists iff the lower-case parameter has values, and it holds the mean, variance, min, max and count of exactly those values |
| AnalyticsService.StatisticsBounds | web/src/services/analyticsService.js:155-166 | each entry has 0 < count <= rows, min <= mean <= max, and variance >= 0 |
| AnalyticsService.DetectRealAnomalies | web/src/services/analyticsService.js:176-207 | the loops and the sort return the collected anomalies, newest first |
| Seqs.SortByStable | web/src/services/analyticsService.js:207 | the sort is stable: the elements of each tie class come out in their input order, as `Array.prototype.sort` must (ECMAScript 2019 and later) |
| Seqs.InsertByStable | web/src/App.js:640 | inserting an element puts it after every tied element already present and keeps the order of that tie class |
| AnalyticsService.DetectedAnomalies | web/src/services/analyticsService.js:178-207 | the result is sorted newest first and is a permutation of the collected anomalies; an anomaly is listed iff its row is flagged for its parameter; each one exceeds the threshold 2 and is high iff its z-score exceeds 3 |
| AnalyticsService.ConstantParameterQuiet | web/src/services/analyticsService.js:183-191 | a parameter whose readings are all equal raises no anomaly |
| AnalyticsService.TrendWindows | web/src/services/analyticsService.js:217-218 | the two windows split the values at floor(n/2), the second is at most one longer, and their sums add up |
| AnalyticsService.DirectionIncreasingIff | web/src/services/analyticsService.js:223-227 | increasing iff the second mean moves more than 5% away from a non-zero first mean in its direction, or the first mean is 0 and the second positive (an infinite change) |
| AnalyticsService.DirectionDecreasingIff | web/src/services/analyticsService.js:223-228 | decreasing iff the move is more than 5% the other way, or the first mean is 0 and the second negative |
| AnalyticsService.StableChangeIsStableDirection | web/src/services/analyticsService.js:225-239 | `isStable` implies a stable direction; a change of exactly 5, and the NaN change of two zero means, are stable in direction but not `isStable` |
| AnalyticsService.VolatileIff | web/src/services/analyticsService.js:231-240 | `isVolatile` iff the standard deviation exceeds a tenth of the mean |
| AnalyticsService.ConstantTrend | web/src/services/analyticsService.js:216-240 | a constant non-zero series has change 0, is stable, and is volatile iff negative |
| AnalyticsService.AnalyzeRealTrends | web/src/services/analyticsService.js:211-245 | the loop builds the trends map of the specification |
| AnalyticsService.TrendEntries | web/src/services/analyticsService.js:214-216 | a trend exists iff the parameter has more than ten values, and it is computed from exactly those values |
| AnalyticsService.ProcessRealData | web/src/services/analyticsService.js:91-145 | the method's result is the analysis function of its input |
| AnalyticsService.EmptyUploadAnalysis | web/src/services/analyticsService.js:92-101 | a missing or empty upload gives an analysis with nothing in it |
| AnalyticsService.AnalysisStatisticsKeys | web/src/services/analyticsService.js:130 | every statistics key is the lower-case name of a present parameter, and no count exceeds the number of rows |
| AnalyticsService.AlertsAreAnomaliesAbove | web/src/services/analyticsService.js:284 | the alerts are the anomalies whose z-score exceeds the threshold, in their order |
| AnalyticsService.AlertsThresholdAntitone | web/src/services/analyticsService.js:284 | raising the threshold never adds an alert |
| AnalyticsService.AlertsOfAnalysis | web/src/services/analyticsService.js:274-290 | at a threshold of 2 or more, the alerts are newest first and a permutation of the anomalies detected at that threshold |
| ZScore.ValuesOfMembers | web/src/services/analyticsService.js:181 | the values of a parameter are exactly the readings of the records that carry it |
| ZScore.SeverityMeansThreeSigma | web/src/services/analyticsService.js:194 | severity is high iff the z-score exceeds 3 |
| ZScore.Collect | web/src/services/analyticsService.js:180-204 | the nested loops push exactly the specification's anomalies, parameter after parameter, row after row |
| ZScore.AnomaliesForMembers | web/src/services/analyticsService.js:187-203 | an anomaly is reported for a parameter iff its row carries the parameter and the row's z-score exceeds the threshold |
| ZScore.CollectMembers | web/src/services/analyticsService.js:180-203 | over all parameters, an anomaly is reported iff its parameter is listed and its row is flagged for that parameter |
| ZScore.CollectedAnomaliesWellFormed | web/src/services/analyticsService.js:187-203 | every reported anomaly names a parameter of the list, points to a row, exceeds the threshold, and is high iff its z-score exceeds 3 |
| ZScore.ConstantReadingsNoAnomalies | web/src/services/analyticsService.js:183-191 | equal readings (zero deviation, so a NaN z-score) never flag a row |
| ZScore.CollectThreshold | web/src/services/analyticsService.js:178-191 | detection at a higher threshold keeps exactly the lower threshold's anomalies that also exceed the higher one, in order |
| ZScore.NewerOrSameIsTotalPreorder | web/src/services/analyticsService.js:207 | the newest-first comparison is a total preorder, so the sort is well defined |
| ZScore.OutlierAmongFourReadings | web/src/services/analyticsService.js:178-203 | readings 10, 10, 10, 100 give the outlier a z-score of sqrt(3): nothing at the default threshold 2, one medium anomaly at threshold 1 |
| Statistics.MeanBetweenExtremes | web/src/services/analyticsService.js:156-160 | the mean lies between the minimum and maximum |
| Statistics.ConstantStatistics | web/src/services/analyticsService.js:156-160 | a constant series has that constant as mean, min and max, and zero variance |
| Statistics.ZAboveIff | web/src/services/analyticsService.js:190-191 | the squared test is the z-score test: for std >= 0 with std^2 = variance, `|v - m| / std > t` iff `ZAbove` |
| Statistics.ZAboveAntitone | web/src/services/analyticsService.js:284 | exceeding a higher threshold implies exceeding a lower one |
| BackendViews.Summarize | backend/api/views.py:30-67 | the two column loops and the type counts compute the summary of the (sampled) frame |
| BackendViews.AverageFacts | backend/api/views.py:36-41 | the average is None iff the column is absent; otherwise it is the mean of the column's numbers and lies between their extremes |
| BackendViews.BeyondThreeSigmaSquared | backend/api/views.py:47-52 | a value beyond three sample deviations has a squared deviation above nine sample variances |
| BackendViews.Chebyshev | backend/api/views.py:47-53 | fewer than one in nine of n−1 values lie beyond three sample deviations |
| BackendViews.AnomalyCountBounds | backend/api/views.py:43-59 | the count is at most the number of values; a positive count satisfies 9·count < n−1, so ten or fewer values never report an anomaly |
| BackendViews.ConstantColumnNoAnomalies | backend/api/views.py:48-57 | a column of equal values reports zero anomalies |
| BackendViews.CountValuesFacts | backend/api/views.py:61 | `value_counts` maps exactly the values seen, each to its multiplicity |
| BackendViews.TypeDistributionFacts | backend/api/views.py:61 | empty without a `Type` column; otherwise each non-missing type counts its occurrences and the counts add up to the number of such cells |
| BackendViews.NewestFacts | backend/api/views.py:73 | the five newest are sorted newest first and drawn from the stored datasets; any dataset left out is no newer than any kept; all are kept when there are five or fewer |
| BackendViews.NewerUploadIsTotalPreorder | backend/api/views.py:73 | the newest-first comparison is a total preorder, so `order_by` is well defined |
| BackendViews.RetainedFacts | backend/api/views.py:72-81 | with distinct ids, retention keeps at most five datasets, keeps each of the five newest, and deletes none newer than one it keeps |
| BackendViews.RetainedValid | backend/api/views.py:72-81 | retention preserves distinct ids below the next id |
| BackendViews.DatasetStore.Retain | backend/api/views.py:72-81 | the store afterwards holds exactly the retained datasets, in storage order |
| BackendViews.DatasetStore.Upload | backend/api/views.py:15-167 | on the web endpoint an unauthenticated request is refused before anything else, the desktop endpoint admits everyone; then no file gives 400 "No file uploaded" and an unparseable file gives 400 "Could not parse CSV: " followed by the parser's message, all leaving the store unchanged; a text cell in a numeric column gives 500; otherwise the summarised dataset is stored, retention runs, and 201 carries the new dataset |
| BackendViews.DatasetStore.List | backend/api/views.py:171 | at most five datasets, newest first |
| BackendViews.DatasetStore.ReportFor | backend/api/views.py:182-189 | refused iff the request is unauthenticated; otherwise 404 "Dataset not found" iff no stored dataset has the id, and the report of that id iff one has |
| BackendViews.DatasetStore.DataFor | backend/api/views.py:218-230 | 404 iff no stored dataset has the id; otherwise the rows of that dataset |
| Dashboard.FilterData | web/src/components/AnalyticsDashboard.jsx:164-182 | the three optional passes give the filter of the data by the combined `Shown` predicate |
| Dashboard.FilteredDataFacts | web/src/components/AnalyticsDashboard.jsx:164-182 | the filtered data is a subsequence; a row is kept iff it matches the equipment, carries the parameter and its equipment contains the search term; all/all/"" keeps everything |
| Dashboard.EquipmentListFacts | web/src/components/AnalyticsDashboard.jsx:184-188 | the list names exactly the equipment of some row, without duplicates, strictly ascending, and is empty iff there is no data |
| Dashboard.FindRow | web/src/components/AnalyticsDashboard.jsx:262 | the result is the first row with the equipment and timestamp, or None iff there is none |
| Dashboard.ChartDataShape | web/src/components/AnalyticsDashboard.jsx:258-267 | min(50, n) points, one per trailing row with its timestamp, each with a cell for exactly the listed equipment |
| Dashboard.ChartCellOwnRow | web/src/components/AnalyticsDashboard.jsx:262-263 | with distinct timestamps, a row's own equipment cell holds that row's reading, or `undefined` when the row lacks it (`null` is left for equipment with no row at that time) |
| Dashboard.BaselineAlertIff | web/src/components/AnalyticsDashboard.jsx:284-285 | a reading alerts iff its distance from 60 exceeds 10 times the threshold |
| Dashboard.ActiveAlerts | web/src/components/AnalyticsDashboard.jsx:277-289 | the active-alert count never exceeds the number of filtered rows |
| Dashboard.SystemHealthFacts | web/src/components/AnalyticsDashboard.jsx:300-310 | health is within [0, 100], is 100 iff no row alerts, and the clamp at zero never applies |
| Dashboard.ActiveAlertsAntitone | web/src/components/AnalyticsDashboard.jsx:277-289 | raising the threshold never raises the alert count |
| Dashboard.StatsCardsFacts | web/src/components/AnalyticsDashboard.jsx:269-315 | alerts never exceed data points, the equipment total counts the distinct names and is 0 iff there is no data, and health is within [0, 100] |
| Dashboard.StatisticsMemo | web/src/components/AnalyticsDashboard.jsx:216-256 | the all-zero record iff the data is empty; undefined otherwise, since the non-empty branch returns nothing |
| Dashboard.AnomalyTimeline | web/src/components/AnalyticsDashboard.jsx:868-909 | the block pushes, sorts and slices to the ten newest anomalies of the filtered rows |
| Dashboard.NewestTenFacts | web/src/components/AnalyticsDashboard.jsx:902-909 | the sort and slice keep at most ten anomalies, newest first, all drawn from those found and none older than one left out; all of them when ten or fewer were found |
| Dashboard.TimelineOrder | web/src/components/AnalyticsDashboard.jsx:902-909 | at most ten, newest first, none older than an omitted anomaly, and all of them (as a permutation) when there are ten or fewer |
| Dashboard.TimelineEntries | web/src/components/AnalyticsDashboard.jsx:870-929 | each entry is a flagged (row, parameter) pair of the filtered rows above the slider threshold, and its badge is HIGH iff its z-score exceeds 3 |
| Desktop.EmptySearchMatchesItems | desktop/app.py:1396-1405 | an empty search matches every row that has at least one item |
| Desktop.VisibleRowsFacts | desktop/app.py:1415-1419 | one exported line per shown row, each the text of some shown row; with nothing hidden, every row in order |
| Desktop.Table.SetRowHidden | desktop/app.py:1405 | sets the row's flag; a row past the end is ignored |
| Desktop.Table.Populate | desktop/app.py:518-536 | an empty list clears the table; otherwise the headers are the first row's keys, the grid is resized to rows × headers keeping old items and flags, and then filled row by row |
| Desktop.Table.Search | desktop/app.py:1396-1405 | afterwards, row r is hidden iff none of its items contains the lower-cased search text; the items are unchanged |
| Desktop.Table.Export | desktop/app.py:1411-1419 | the written lines are the header row and then the text of each shown row, in order |
| Desktop.Table.ExportTable | desktop/app.py:1407-1423 | a cancelled dialog writes nothing; otherwise the export's lines are written |
| Desktop.Processing.Upload | desktop/app.py:401-418 | refuses without a file, then while busy; otherwise starts and becomes busy |
| Desktop.Processing.LoadHistory | desktop/app.py:460-468 | starts iff not busy, and is busy afterwards |
| Desktop.Processing.OnUploadSuccess | desktop/app.py:432-448 | the flag is cleared; on success the history load starts again, so busy ends true iff the answer has no error |
| Desktop.Processing.Finish | desktop/app.py:450-458 | the upload-error and history handlers leave the flag cleared |
| DesktopApp.CalculateStatistics | desktop/app.py:1176-1232 | no data, no numeric columns, or one section per numeric column that has values, as the specification function says |
| DesktopApp.SectionsOfFacts | desktop/app.py:1192-1219 | one section per column with values, in order; each has count > 0, min <= mean <= max and range >= 0 |
| DesktopApp.CvCompare | desktop/app.py:1311 | for a positive mean, CV < b iff 10000·s² < b²·m², and likewise for > |
| DesktopApp.VariationBands | desktop/app.py:1311-1319 | for a positive mean, very stable iff 100·var < m², moderate iff m² <= 100·var < 9m², high otherwise |
| DesktopApp.NegativeMeanIsStable | desktop/app.py:1311-1315 | a negative mean gives a non-positive CV, read as very stable |
| DesktopApp.InsideQuartilesNoOutliers | desktop/app.py:1331-1334 | a column whose values all lie within the quartiles has no IQR outliers |
| DesktopApp.GenerateInsights | desktop/app.py:1283-1348 | no data, or the findings and outlier lines of the first five numeric columns, with the clean-data line iff the total is zero |
| DesktopApp.FindingsFacts | desktop/app.py:1306-1320 | one finding per column with values, in order, carrying that column's variation band |
| DesktopApp.OutlierLinesFacts | desktop/app.py:1328-1341 | no outlier lines iff the total is zero iff no column has outliers; every line reports a positive count |
| DesktopApp.GenerateRecommendations | desktop/app.py:1350-1382 | the list built is the specification's: optional data-quality and variability items, then the four general items |
| DesktopApp.DataQualityIff | desktop/app.py:1358-1359 | more than 5% missing iff cells > 0 and 20·missing > cells |
| DesktopApp.RecommendationsShape | desktop/app.py:1355-1380 | 4 to 6 items, always ending with the four general ones |
| DesktopApp.DataQualityItem | desktop/app.py:1358-1360 | a data-quality item appears iff more than a twentieth of the cells are missing |
| DesktopApp.HighVariationNamesFilter | desktop/app.py:1363-1369 | the listed columns are the names of the high-variation columns, in order |
| DesktopApp.HighVariationNamesNonEmpty | desktop/app.py:1363-1371 | the list is non-empty iff some column has a CV above 30 |
| DesktopApp.VariabilityItem | desktop/app.py:1371-1372 | a variability item appears iff some column is listed, and it names exactly the listed columns |
| DesktopApp.ListedColumnsReadHigh | desktop/app.py:1314-1319 | a listed column reads "High variation" in the insights; a column read as high but not listed has an undefined (NaN) CV or a CV of exactly 30 |
| DesktopAppWorking.Lookup | desktop/app_working.py:525-526 | the value is the one stored under the key in the record |
| DesktopAppWorking.FilterDefaults | desktop/app_working.py:515-526 | no search and no value shows every record; "All Columns" ignores the value; a record without the column ignores it too |
| DesktopAppWorking.SearchHitOnFilteredColumn | desktop/app_working.py:515-526 | a search hit in the filtered column passes both tests when the search text contains the filter value |
| DesktopAppWorking.ShouldShowRow | desktop/app_working.py:515-527 | the loop body's decision is `ShouldShow` |
| DesktopAppWorking.LabelCountsShownRows | desktop/app_working.py:529-533 | the label's count equals the number of rows left shown |
| DesktopAppWorking.DataTab.PopulateTable | desktop/app_working.py:472-499 | an empty list clears the table and keeps the previous records; otherwise the table is filled, the chooser lists "All Columns" and the keys, and the new records are kept; on a first load the label shows the dimensions, but when a previous load left records, the chooser's two `currentTextChanged` passes filter those old records, so the flags and the label (shown of the old total) come from them |
| DesktopAppWorking.DataTab.FilterPass | desktop/app_working.py:505-534 | one `apply_filters` run for a given chooser text: a no-op before a load or with no records; otherwise record k's row is hidden iff not `ShouldShow`, and the label reads (shown, total) |
| DesktopAppWorking.FlaggedOverwrite | desktop/app_working.py:515-530 | a second pass over the same records decides every flag the first set |
| DesktopAppWorking.DataTab.ApplyFilters | desktop/app_working.py:501-534 | a no-op before a load or with no records; otherwise record k's row is hidden iff not `ShouldShow`, and the label reads (shown, total) |
| DesktopAppWorking.DataTab.ClearFilters | desktop/app_working.py:536-547 | the inputs are reset; after a load every record's row is shown and the label shows the dimensions |
| DesktopAppWorking.DataTab.ExportTable | desktop/app_working.py:666-693 | nothing to export for an empty table; otherwise cancelled, or the header and shown rows are written |
| DesktopAppWorking.ClearedTableExportsAll | desktop/app_working.py:536-547 | after clearing, no row is hidden and an export writes every row |
| UploadForm.Rejection | web/src/components/UploadForm.jsx:28-53 | accepted iff the name ends in ".csv" and 0 < size <= 10 MiB; otherwise the message of the first failing check, in the source's order |
| UploadForm.SizeBoundary | web/src/components/UploadForm.jsx:37-38 | exactly 10 MiB is accepted, one byte more is too large, and zero bytes is empty |
| UploadForm.StyleOf | web/src/components/UploadForm.jsx:284 | error iff the text contains ❌; success iff not, but it contains ✅; info otherwise |
| UploadForm.FailureMessage | web/src/components/UploadForm.jsx:71-77 | always starts with "❌ "; contains the server's error when one was sent; otherwise the exception's text |
| UploadForm.ErrorMessagesStyle | web/src/components/UploadForm.jsx:21-48 | every validation message and every failure report is styled as an error |
| UploadForm.ConfirmationsStyle | web/src/components/UploadForm.jsx:65 | both confirmations are styled as successes |
| UploadForm.ProgressStyle | web/src/components/UploadForm.jsx:56 | the progress text is styled as information |
| UploadForm.Form.SubmitDisabled | web/src/components/UploadForm.jsx:264 | enabled iff not busy and a file is selected |
| UploadForm.Form.Submit | web/src/components/UploadForm.jsx:13-84 | no file: asks for one; a failing file: dropped with its message; otherwise uploads, and afterwards is idle with progress 0 and reports success or the failure message; a validly selected file always reaches the upload |
| UploadForm.Form.HandleFileChange | web/src/components/UploadForm.jsx:139-179 | no file: nothing changes; a failing file clears the selection; a good file is selected with its confirmation; the selection invariant is kept |
| UploadForm.Form.HandleDrop | web/src/components/UploadForm.jsx:96-137 | only the first file counts; a failing one leaves the previous selection in place; a good one is selected; the highlight goes off |
| UploadForm.Form.HandleDragOver | web/src/components/UploadForm.jsx:86-89 | the highlight goes on and nothing else changes |
| UploadForm.Form.HandleDragLeave | web/src/components/UploadForm.jsx:91-94 | the highlight goes off and nothing else changes |
| UploadForm.SelectThenSubmit | web/src/components/UploadForm.jsx:13-84 | picking a good file and submitting reports "uploading" and then the outcome's message |
| Api.ConfiguredBase | web/src/api.js:3 | the environment value when it is set and non-empty, otherwise the hosted URL |
| Api.DropTrailingSlash | web/src/api.js:6 | the result is the text without its one trailing "/", or the text itself when it does not end in "/" |
| Api.ApiBase | web/src/api.js:3-7 | the start-up code yields the normalised configured base, which ends with "/api" |
| Api.NormalisedEndsWithApi | web/src/api.js:5-7 | after normalisation the base ends with "/api" |
| Api.NormalisedIdempotent | web/src/api.js:5 | a base ending in "/api" is unchanged, so normalising twice equals normalising once |
| Api.NormalisedAppends | web/src/api.js:6 | otherwise one trailing "/" is dropped and "/api" appended, so ".../api/" becomes ".../api/api" |
| Api.DefaultBaseKept | web/src/api.js:3 | with nothing configured, the hosted URL is used unchanged |
| Api.RequestConfig.SetAuth | web/src/api.js:17-19 | the credentials are attached and the content and response types are unchanged |
| Api.UploadConfig | web/src/api.js:9-19 | always multipart; credentials are attached iff the user name is truthy, and they are the given ones |
| Api.DownloadConfig | web/src/api.js:31-33 | always a blob response; credentials are attached iff the user name is truthy |
| Api.EndpointsUnderApi | web/src/api.js:20-34 | every endpoint URL extends the normalised base with "/", which ends in "/api/" |
| Reports.FilteredCompoundsFacts | web/src/App.js:376-381 | a subsequence; a compound is kept iff its name or formula contains the term case-insensitively and the category is "all" or its own; an empty search with "all" keeps all |
| Reports.NewerDateIsTotalPreorder | web/src/App.js:639 | the newest-first date comparison is a total preorder, so the sort is well defined |
| Reports.NewestFirstFacts | web/src/App.js:639 | the sort keeps length and contents (a permutation) and leaves dates non-increasing |
| Reports.AllReportsFacts | web/src/App.js:638-641 | 6 + saved entries, a permutation of the built-in and saved reports, every saved report included, dates non-increasing |
| Reports.FilteredReportsFacts | web/src/App.js:647-651 | a subsequence of all reports, still newest first; a report is kept iff its title contains the term case-insensitively and the type is "all" or its own; an empty search with "all" keeps all |
| Reports.StatusMapsTotal | web/src/App.js:653-669 | each map falls back to its default iff the status is unknown, and it tells the known statuses apart |
| Reports.NewReportDefaults | web/src/App.js:1289-1303 | a new report is completed, links to "#", and takes its id and date from the clock; zero or missing datasets become 1; a missing or empty title becomes "Analytics Report" |
| Reports.ReportStore.Save | web/src/App.js:1286-1306 | exactly one report, the one built from the input, is appended; earlier entries are unchanged |
| Reports.ReportStore.Remove | web/src/App.js:857 | the stored list is emptied |
| Reports.ReportsPage.constructor | web/src/App.js:514-521 | the page starts with a copy of the stored list |
| Reports.ReportsPage.Refresh | web/src/App.js:524-532 | the page's copy becomes the stored list |
| Reports.ReportsPage.ClearSaved | web/src/App.js:855-861 | store and copy are emptied iff the user confirms; otherwise nothing changes |
| Reports.SavedReportListed | web/src/App.js:638-641 | after saving and refreshing, the report is listed and the list grows by one |
| Reports.ClearedListsBuiltins | web/src/App.js:638-641 | after a confirmed clear, exactly the six built-in reports are listed |
| GlobalSearch.SuggestionsFacts | web/src/components/GlobalSearch.jsx:48-52 | at most six suggestions, a subsequence of the catalogue, each matching in title, description or category; a matching entry with fewer than six matches before it is listed, so every match is listed when there are six or fewer |
| GlobalSearch.FirstSuggestion | web/src/components/GlobalSearch.jsx:48-52 | the list is non-empty iff some entry matches, and it starts with the first match |
| GlobalSearch.TermChanged | web/src/components/GlobalSearch.jsx:45-63 | an empty term closes and empties the list (the initial state); a non-empty one opens the term's suggestions from the catalogue |
| GlobalSearch.Select | web/src/components/GlobalSearch.jsx:76-80 | navigates to the entry's path and leaves the state an empty term produces, whatever the catalogue |
| GlobalSearch.KeyDown | web/src/components/GlobalSearch.jsx:86-91 | Enter with a non-empty list opens the first entry and resets the box; Escape only closes the list; navigation happens iff Enter is pressed on a non-empty list |
| GlobalSearch.EnterOpensFirstMatch | web/src/components/GlobalSearch.jsx:45-91 | for any catalogue, typing a term and pressing Enter opens the first matching entry iff one exists, and resets the box |
| GlobalSearch.CategoryColorTotal | web/src/components/GlobalSearch.jsx:94-103 | the grey default iff the category is unknown; the five known categories get distinct colours |

## Left out

- Floating point:
  - IEEE rounding, `NaN` as a value, and `toFixed(2)` rounding of the stored values are not modelled.
  - Anomalies keep the exact z-score (as its square), so severity and alert tests use the unrounded score. The source compares the score rounded to two places.
- Square roots are never taken; every deviation test is stated on squares (see above).
- `parseFloat` is modelled for decimal text without exponents, `Infinity` or leading whitespace.
- Lower-casing is ASCII only. Strings compare by code point, not by JavaScript's UTF-16 units.
- Network, file and Qt I/O are outside the model:
  - HTTP requests, CSV parsing, PDF rendering, the Django ORM, and file dialogs and writes (an export either is cancelled or writes its lines).
  - The `_perform_upload`/`_perform_load_history` workers are reduced to their handlers.
  - Qt signal re-entry is modelled where it changes the outcome: the column chooser's two `currentTextChanged` emissions inside `populate_table`. The `textChanged` and `currentTextChanged` emissions inside `clear_filters` run filter passes whose flags and label the method then overwrites, so its final state is the one modelled.
- Timers are collapsed:
  - the 300 ms suggestion delay;
  - the 5-second report refresh and the dashboard polling;
  - the cross-tab `storage` event, which only calls the refresh.
- Randomness: `df.sample` is a parameter that must be some 50 000 distinct rows of the frame.
- BackendViews.Summarize: summarises the three fixed columns `Flowrate`, `Pressure` and `Temperature` whenever the frame has them. A text cell in one of them makes `astype(float)` raise outside any `try`; `DatasetStore.Upload` answers that frame with `ServerError` (500) before `Summarize` is reached. Whether pandas reads a given text as a number is not modelled: a `Label` cell is a text that does not parse.
- BackendViews.DatasetStore.Upload: the 500 of a failed save (views.py:85-89) is not modelled, because the ORM is outside the model. A refused request is one `NotAuthenticated` answer; whether it is 401 or 403 depends on the authentication scheme, which is not modelled.
- DesktopApp.CalculateStatistics: the median, quartile, skewness and kurtosis rows are not computed. The standard deviation and the quartiles are inputs of each column, as pandas computes them.
- DesktopApp.GenerateRecommendations: the missing-cell count and the cell total are inputs. With an empty frame the source divides 0 by 0 (NaN, never above 5); the model reads that case as "not needed", which agrees.
- DesktopAppWorking.DataTab.PopulateTable: as written, an empty list keeps the previous load's `original_rows`, so a later filter pass still walks the old records. Rows of the new table beyond the old records keep the flags `setRowCount` left them.
- The `search_table` of `desktop/app_working.py` only calls `apply_filters` and is covered by `DesktopAppWorking.DataTab.ApplyFilters`.
- `desktop/app_final_working.py`, `desktop/app_working_final.py` and `desktop/fix_app.py` are other copies of the desktop client and are not part of this model.
- The History tab, the PDF report download and the dashboard's demo-data generator are not part of this model.
- Dashboard.StatisticsMemo: as written, the memo returns `undefined` whenever there is data, because its non-empty branch only declares a helper. The intended record is not evident, so no corrected version is modelled.
- The timeline's comparator branch for unparseable dates is unreachable here: timestamps are integers.
- JavaScript's `sort` is stable (ECMAScript 2019 and later); `Seqs.SortBy` is a stable insertion sort, so it models that order exactly (`Seqs.SortByStable`).
- BackendViews.Newest: SQL's `ORDER BY uploaded_at DESC` leaves datasets with equal upload times in an unspecified order; the model takes storage order for them. What `BackendViews.NewestFacts` and `BackendViews.RetainedFacts` say about order, and that nothing newer than a kept dataset is deleted, holds for any order of ties; which of several equally new datasets ends up among the five kept follows the storage order.
- AnalyticsService.EquipmentLabel: labels are text, so a numeric `Type` cell gives "Unknown". JavaScript keeps a non-zero number as the label (`row.Type || 'Unknown'`), so distinct numeric types would be distinct equipment there but merge into "Unknown" here.
- Reports: a parse error in stored JSON (the `catch` that returns `null`) is not modelled; the store is a typed list. Each new report's id and date come from the `now` and `today` parameters.
- GlobalSearch.TermChanged: the catalogue is a parameter; the component always passes its fixed `searchData` (`GlobalSearch.SearchData`), and the properties are proved for every catalogue.
- Icons and display-only fields (colours of cards, HTML markup, progress percentages during an upload) are not modelled.
