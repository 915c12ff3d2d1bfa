# Readiness core of the training manager, in Dafny

This project models the part of the training manager that computes an athlete's readiness. It is organised as one module per source file:

- **`AcwrService`** (`acwr.dfy`): the acute:chronic workload ratio.
  - The acute load is the sum of the training loads of the 7 days ending on the reference date.
  - The chronic load is the sum over the 28 days ending on that date, divided by 4.
  - The ratio is acute over chronic, and 0 when the chronic load is 0. A ratio above 1.5 is the danger zone.
  - `AcuteLoad` and `ChronicLoad` are the window sums of the two helpers; their properties are the lemmas `AcuteLoadRange` and `ChronicLoadRange`.
  - `ComposeAcwr` builds the result from the two fetched lists, and `CalculateAcwr` runs the two range fetches the service issues over the stored sessions.
- **`WorkoutSessionService`** (`workout_session.dfy`):
  - the training load of a session (duration × sRPE);
  - the range query, with its optional user filter;
  - the session store as a class whose create method appends.
- **`DailyWellnessService`** (`daily_wellness.dfy`):
  - the HRV ratio (HRV over resting heart rate, 0 when the heart rate is 0);
  - the by-date and by-range getters that enrich rows with that ratio;
  - create and upsert as methods of a store class. The store keeps the table's one-row-per-(tenant, user, date) invariant.
- **`FateViews`** (`fate_views.dfy`): the three view schemas.
- **`FateUtils`** (`fate_utils.dfy`):
  - `generateSelectPaths`, as a loop method proved against a recursive specification function;
  - `unwrapConnection`;
  - `unwrapConnectionsInPlace`, as a method on a mutable object.
- **`FateResolve`** (`fate_resolve.dfy`): a specification of the resolver the router calls. The resolver is an external library, so this module is not a model of its code.
  - Pinned by the resolver tests: selected leaf values come through unchanged (`acwr.acute_load`, `acwr.chronic_load`), a list becomes a connection whose `items[i].node` is the projected element, the bare names `acwr` and `wellnessHistory` give defined parts, and selecting `wellnessHistory.id` keeps the id of each node.
  - Assumed library behaviour, which no test checks: a field is kept only when its bare name, or a dotted path under it, is selected, so an unselected field is omitted and an empty selection resolves to `{}`; a bare container name selects every field of its view.
  - The item cursors and the pagination block are parameters.
- **`DashboardRouter`** (`dashboard_router.dfy`): `getReadinessView`.
  - `history_days` defaults to 28.
  - The wellness window is the `history_days` days ending on the date.
  - The ACWR is computed for the date over the caller's own sessions.
  - The default selection is `['acwr', 'wellnessHistory']`.
  - The ACWR result and the wellness records are reshaped into the view's records.
- **`DashboardChart`** (`dashboard_chart.dfy`): the date join that builds the dashboard's chart rows, with the last wellness sample of a date winning.
- **`WellnessConfig`** (`wellness_config.dfy`): the wellness metric table, the slider colours under standard and inverted polarity, and the metric labels.
- **Shared helpers**: `wrappers.dfy` (an `Option` type) and `calendar.dfy` (calendar days as integer ordinals, inclusive windows).

Calendar dates are day ordinals. Comparing two `YYYY-MM-DD` strings is the same as comparing their ordinals, and "n days before" is subtraction. Training loads are integers. Chronic load, ratios and heart-rate values are exact reals.

The dashboard page reads `acwrHistory` from the readiness payload, but `getReadinessView` never sends that field. `DashboardChart.ChartData` therefore gives `TypeError` for any payload without it. It gives an empty row list only when there is no payload at all.

## Model

| member | source | states |
|---|---|---|
| WorkoutSessionService.TrainingLoad | src/services/workoutSession.service.ts:17-19 | The load is 0 when the duration or the sRPE is 0, equals the duration at sRPE 1, and is never negative for non-negative inputs |
| WorkoutSessionService.TrainingLoadExamples | src/services/workoutSession.service.ts:17-19 | 60 min at sRPE 7 gives 420; 0 min gives 0; sRPE 1 gives the duration; 30 min at sRPE 10 gives 300 |
| WorkoutSessionService.SessionStore.CreateWorkoutSession | src/services/workoutSession.service.ts:21-42 | The created session carries the new id and every input field, and its load is duration × sRPE. It is appended to the stored rows and nothing else changes |
| WorkoutSessionService.BuildQuery | src/services/workoutSession.service.ts:55-63 | The query always has the tenant, start-date and end-date conditions, in that order. A fourth condition, on the given user, is added exactly when a non-empty user id is given |
| WorkoutSessionService.BuiltQueryMeansMatches | src/services/workoutSession.service.ts:55-63 | A session satisfies every built condition iff it belongs to the tenant, its date is in [start, end], and it belongs to the user when a non-empty user id is given |
| WorkoutSessionService.SessionsByDateRange | src/services/workoutSession.service.ts:51-66 | A row is in the result iff it is stored and satisfies the built conditions, and the result is no longer than the stored rows |
| WorkoutSessionService.SessionsByDateRangeCounts | src/services/workoutSession.service.ts:51-66 | Each row satisfying the conditions is returned exactly as often as it is stored, and every other row not at all |
| WorkoutSessionService.SessionsByDateRangeMembers | src/services/workoutSession.service.ts:55-65 | Membership of the fetched range is characterised by tenant, inclusive window and optional user |
| WorkoutSessionService.NoUserFilterCoversTenant | src/services/workoutSession.service.ts:61-63 | Without a user id (or with an empty one), every session of the tenant in the window is returned, whatever its user |
| AcwrService.LoadsOf | src/services/acwr.service.ts:22-25 | Each fetched session becomes one `{date, training_load}` entry, in order |
| AcwrService.IsDangerZone | src/services/acwr.service.ts:18-20 | Danger iff the ratio is strictly above 1.5 |
| AcwrService.DangerZoneBoundary | src/services/acwr.service.ts:18-20 | 1.5 is not danger, 1.6 is, 1.2 is not |
| AcwrService.Ratio | src/services/acwr.service.ts:85 | A chronic load of 0 gives 0; otherwise ratio × chronic = acute |
| AcwrService.WindowSumBounds | src/services/acwr.service.ts:30-35 | With non-negative loads, the filter-then-sum of any window lies between 0 and the total of all loads |
| AcwrService.WindowSumExtremes | src/services/acwr.service.ts:30-35 | A window holding every load sums to the total, one holding none sums to 0, and with non-negative loads any window lies in between |
| AcwrService.AcuteLoadRange | src/services/acwr.service.ts:22-36 | The acute load is the total when every load is dated in [ref − 6, ref], 0 when none is, and between 0 and the total for non-negative loads |
| AcwrService.ChronicLoadRange | src/services/acwr.service.ts:38-54 | Four times the chronic load is the total when every load is dated in [ref − 27, ref], 0 when none is, and between 0 and the total for non-negative loads |
| AcwrService.ComposeAcwr | src/services/acwr.service.ts:82-92 | The acute load is that of the acute list and the chronic load that of the chronic list; a chronic load of 0 gives ratio 0 and no danger, otherwise ratio × chronic = acute; danger iff ratio > 1.5 |
| AcwrService.CalculateAcwr | src/services/acwr.service.ts:56-93 | The two range fetches give the same result as composing the 7- and 28-day window sums over all the sessions of the tenant (and user), whatever their date: the fetch ranges lose nothing the windows need |
| AcwrService.FetchedWindowSum | src/services/acwr.service.ts:68-83 | Summing a window that lies inside the fetched range over the fetched rows equals summing it over every in-scope row |
| AcwrService.WindowSumAppend | src/services/acwr.service.ts:30-35 | The window sum of a concatenation is the sum of the window sums |
| AcwrService.WindowSumPermutation | src/services/acwr.service.ts:30-35 | The window sums do not depend on the order the database returns the sessions in |
| AcwrService.WindowSumIgnoresOutside | src/services/acwr.service.ts:31-34 | Adding sessions dated outside the window, before or after, leaves the sum unchanged |
| AcwrService.OutsideSumsToZero | src/services/acwr.service.ts:31-34 | Sessions all dated outside the window sum to 0 |
| AcwrService.WindowSumOfInside | src/services/acwr.service.ts:30-35 | When every session lies in the window, the window sum is the plain total |
| AcwrService.WindowSumMonotone | src/services/acwr.service.ts:22-54 | With non-negative loads, a wider window never sums to less |
| AcwrService.AcuteWithinChronic | src/services/acwr.service.ts:22-54 | With non-negative loads, 0 ≤ acute ≤ 4 × chronic |
| AcwrService.NoSessionsGiveZero | src/services/acwr.service.ts:85-92 | With no session in scope, the result is acute 0, chronic 0, ratio 0, no danger |
| AcwrService.FutureSessionIgnored | src/services/acwr.service.ts:33 | A session dated after the reference date changes neither load |
| AcwrService.ChronicLoadSparsityExample | src/services/acwr.service.ts:38-54 | 28 daily loads of 100 and a single load of 2800 both give chronic load 700 |
| AcwrService.AcuteLoadExamples | src/services/acwr.service.ts:22-36 | Seven daily loads give their sum, 900; a load 7 days back is excluded, giving 100 |
| AcwrService.DangerExample | src/services/acwr.service.ts:56-93 | A spike of 4000 against 100 three weeks earlier gives acute 4000, chronic 1025, danger |
| DailyWellnessService.HrvRatio | src/services/dailyWellness.service.ts:23-26 | A heart rate of 0 gives 0; otherwise ratio × rhr = HRV |
| DailyWellnessService.HrvRatioExamples | src/services/dailyWellness.service.ts:23-26 | HRV 45 at rhr 0 gives 0; at rhr 55 it gives 45/55 |
| DailyWellnessService.RowsInRange | src/services/dailyWellness.service.ts:129-136 | A row is selected iff it is stored and matches tenant, user and the inclusive date window |
| DailyWellnessService.RowsInRangeCounts | src/services/dailyWellness.service.ts:129-136 | Each row in range is selected exactly as often as it is stored, and every other row not at all |
| DailyWellnessService.DailyWellnessByDateRange | src/services/dailyWellness.service.ts:125-142 | One record per selected row, in order, each with the ratio of its own HRV and rhr |
| DailyWellnessService.FirstIndexOf | src/services/dailyWellness.service.ts:102-108 | None iff no row has the key; otherwise the first row with the key |
| DailyWellnessService.FirstIndexOfUnique | src/services/dailyWellness.service.ts:102-108 | The first row carrying a key is the one found |
| DailyWellnessService.DailyWellnessByDate | src/services/dailyWellness.service.ts:98-116 | Nothing iff no stored row has the (tenant, user, date) key; otherwise a stored row with that key, with its own ratio |
| DailyWellnessService.UpdateWhereId | src/services/dailyWellness.service.ts:65-80 | Rows with the id get the input's rhr, HRV and scores (omitted scores become null); every other row is unchanged |
| DailyWellnessService.WellnessStore.CreateDailyWellness | src/services/dailyWellness.service.ts:28-53 | A duplicate key is rejected and the rows are unchanged. Otherwise the new row is appended and returned with the input's ratio. Keys and ids stay unique |
| DailyWellnessService.WellnessStore.UpsertDailyWellness | src/services/dailyWellness.service.ts:55-90 | The new rows are the existing row updated in place, or the new row appended. The returned record is stored under the input's key with the input's ratio. Keys and ids stay unique |
| DailyWellnessService.UpsertKeepsUnique | src/services/dailyWellness.service.ts:55-90 | Upsert keeps at most one row per key, and distinct ids |
| DailyWellnessService.UpsertThenGet | src/services/dailyWellness.service.ts:55-90 | After an upsert the getter finds the input's values and ratio. It keeps the existing id, or takes the fresh one when there was no row |
| DailyWellnessService.UpsertLeavesOtherKeys | src/services/dailyWellness.service.ts:64-80 | The getter's answer for every other key is unchanged |
| DailyWellnessService.UpsertIdempotent | src/services/dailyWellness.service.ts:55-90 | Upserting the same input twice leaves the same rows as once |
| FateViews.ACWRViewShape | src/fate/views.ts:20-25 | The ACWR view has the four leaf fields acute_load, chronic_load, ratio, isDanger, in that order |
| FateViews.WellnessMetricViewShape | src/fate/views.ts:27-33 | The wellness metric view has the five leaf fields id, date, rhr, hrv_rmssd, hrv_ratio, in that order |
| FateViews.ReadinessViewShape | src/fate/views.ts:41-44 | The readiness view has `acwr` (the ACWR view) and `wellnessHistory` (a list of wellness metrics) |
| FateUtils.JoinPath | src/fate/utils.ts:8 | With an empty prefix the path is the field; otherwise it is `prefix.field` |
| FateUtils.GenerateSelectPaths | src/fate/utils.ts:5-16 | The loop emits exactly the depth-first path list of the specification function |
| FateUtils.PathsUnderPrefix | src/fate/utils.ts:5-16 | Under a non-empty prefix every generated path starts with `prefix.` |
| FateUtils.LeafViewPaths | src/fate/utils.ts:5-16 | A view of leaves generates its field names joined under the prefix, in order |
| FateUtils.OnePathPerLeaf | src/fate/utils.ts:5-16 | One path per reachable leaf |
| FateUtils.ReadinessSelectPaths | src/fate/utils.ts:5-16 | The readiness view generates the nine paths `acwr.acute_load` … `wellnessHistory.hrv_ratio` in declaration order |
| FateUtils.Nodes | src/fate/utils.ts:32 | One node per item, in order |
| FateUtils.UnwrapConnection | src/fate/utils.ts:28-33 | A value without `items` is returned as is; a connection becomes the array of its nodes; the result never has `items` |
| FateUtils.UnwrapConnectionIdempotent | src/fate/utils.ts:28-33 | Unwrapping twice is unwrapping once |
| FateUtils.UnwrappedAt | src/fate/utils.ts:35-48 | The keys are unchanged; a listed field holding a connection is unwrapped; every other field is untouched |
| FateUtils.UnwrappedAtIdempotent | src/fate/utils.ts:35-48 | Unwrapping the same fields again changes nothing |
| FateUtils.UnwrappedAtStep | src/fate/utils.ts:39-46 | Each loop iteration unwraps exactly the one field it visits, if that field holds a connection |
| FateUtils.JsObject.UnwrapConnectionsInPlace | src/fate/utils.ts:35-48 | The object is updated in place to its unwrapped properties and is itself returned |
| FateResolve.Children | tests/fate/fate-resolve.test.ts:92-103 | The selection paths under a field, with the field's prefix removed |
| FateResolve.ProjectedKeys | src/fate/dashboardRouter.ts:36-42 | Assumed library rule: the resolved object has exactly the selected fields the data has |
| FateResolve.EmptySelectionResolvesNothing | src/fate/dashboardRouter.ts:36-42 | Assumed library rule: an empty selection resolves to an empty object |
| FateResolve.ResolvedList | tests/fate/fate-resolve.test.ts:124-130 | A selected list becomes a connection with one item per element, in order, whose node is the projected element; unwrapping it gives exactly those projections |
| FateResolve.UnknownPathIgnored | src/fate/dashboardRouter.ts:36-42 | Assumed library rule: a path naming no field of the view changes nothing |
| FateResolve.LeafViewFullProjection | tests/fate/fate-resolve.test.ts:92-131 | A view of leaves with every field selected keeps each property the view names, unchanged |
| FateResolve.BareNameSelectsAll | src/fate/dashboardRouter.ts:36-42 | Assumed library rule: selecting only a container's bare name selects every field of its view |
| FateResolve.ReadinessFullyResolved | tests/fate/fate-resolve.test.ts:92-131 | With every field selected, `acwr` keeps its four fields, and `wellnessHistory` becomes a connection with one item per element, each keeping its five fields and its own cursor |
| FateResolve.DefaultSelectionKeepsAll | tests/fate/fate-resolve.test.ts:63-90 | `['acwr', 'wellnessHistory']` selects every field of both parts (the test checks only that both parts are defined; the rest follows from the assumed bare-name rule) |
| FateResolve.GeneratedSelectionKeepsAll | tests/fate/fate-resolve.test.ts:133-163 | The generated paths select every field of both parts, the sub-selections being the views' field names |
| FateResolve.OnlyIdSelected | tests/fate/fate-resolve.test.ts:165-190 | Selecting `wellnessHistory.id` keeps the id of each element, as the test pins; that `acwr` and the other metric fields are left out follows from the assumed selection rule |
| DashboardRouter.HistoryDays | src/fate/dashboardRouter.ts:10 | `history_days` is 28 when omitted, else the given value, always in [7, 90] |
| DashboardRouter.WellnessQuery | src/fate/dashboardRouter.ts:18-33 | The wellness fetch is the caller's, ends on the date and covers exactly `history_days` days |
| DashboardRouter.DefaultWindow | src/fate/dashboardRouter.ts:18-20 | By default the window starts 27 days before the date and spans 28 days |
| DashboardRouter.HistoryIsCallersWindow | src/fate/dashboardRouter.ts:28-33 | Every reported wellness record is a stored row of the caller, dated in the window |
| DashboardRouter.AcwrData | src/fate/dashboardRouter.ts:44-49 | Exactly the four ACWR keys, each copying its result field |
| DashboardRouter.WellnessMetric | src/fate/dashboardRouter.ts:51-57 | Exactly id, date, rhr, hrv_rmssd and hrv_ratio, copied from the record |
| DashboardRouter.WellnessData | src/fate/dashboardRouter.ts:51-57 | One metric object per fetched record, in order |
| DashboardRouter.ReadinessData | src/fate/dashboardRouter.ts:59-62 | The object handed to the resolver has exactly the keys acwr and wellnessHistory |
| DashboardRouter.GetReadinessView | src/fate/dashboardRouter.ts:17-63 | For an authenticated caller (non-empty tenant and user), the view is an object whose keys are among acwr and wellnessHistory |
| DashboardRouter.DefaultViewIsFull | src/fate/dashboardRouter.ts:22-62 | With no selection the view holds the ACWR of the date over the caller's sessions, and one connection item per wellness record of the window, each with all five fields |
| DashboardRouter.GeneratedSelectionSameAsDefault | src/fate/dashboardRouter.ts:36-42 | Passing the generated select paths gives the same view as passing none |
| DashboardRouter.ViewWithAllFields | src/fate/dashboardRouter.ts:38-62 | Any selection keeping every field resolves the reshaped data to the full view |
| DashboardChart.WellnessMap | src/app/pages/dashboard.tsx:27 | A date is a key iff some sample has it, and it maps to the last sample with that date |
| DashboardChart.ChartData | src/app/pages/dashboard.tsx:28-38 | No payload gives no rows; a payload without `acwrHistory` throws; otherwise one row per history point |
| DashboardChart.RowsJoinByDate | src/app/pages/dashboard.tsx:27-37 | Each row copies date, ratio, acute and chronic load from its point. Its rhr and HRV are those of the last sample of that date, or undefined when there is none |
| DashboardChart.LaterSampleWins | src/app/pages/dashboard.tsx:27 | With two samples on one date, the later one is joined |
| DashboardChart.MissingSampleIsUndefined | src/app/pages/dashboard.tsx:29-36 | A point with no sample of its date gets undefined rhr and HRV |
| WellnessConfig.Normalize | src/app/shared/wellnessConfig.ts:50 | Standard polarity keeps the value; inverted gives 6 − v |
| WellnessConfig.BandOf | src/app/shared/wellnessConfig.ts:52-56 | Red iff ≤ 1, green iff ≥ 5, and 2, 3, 4 are the three bands in between |
| WellnessConfig.GetSliderColor | src/app/shared/wellnessConfig.ts:49-57 | The `bg-` colour of the normalised value's band |
| WellnessConfig.GetSliderTextColor | src/app/shared/wellnessConfig.ts:59-67 | The `text-` colour of the same band |
| WellnessConfig.InvertedMirrorsStandard | src/app/shared/wellnessConfig.ts:49-67 | Inverted polarity at v colours like standard polarity at 6 − v, for both colour functions |
| WellnessConfig.BandMonotone | src/app/shared/wellnessConfig.ts:49-57 | A higher value never gets a worse band under standard polarity, nor a better one under inverted polarity |
| WellnessConfig.FindMetric | src/app/shared/wellnessConfig.ts:70 | None iff no metric has the name; otherwise the first metric with it |
| WellnessConfig.GetMetricLabel | src/app/shared/wellnessConfig.ts:69-73 | An unknown name gives `''`; otherwise the label at the 1-based value, or `''` out of range |
| WellnessConfig.MetricLabelRange | src/app/shared/wellnessConfig.ts:69-73 | For each metric of the table, a value in 1..5 gives its label at that position, and any other value gives `''` |
| WellnessConfig.UnknownMetricHasNoLabel | src/app/shared/wellnessConfig.ts:70-71 | A name outside the table gives `''` |
| WellnessConfig.MetricLabelExamples | src/app/shared/wellnessConfig.ts:69-73 | Stress 5 is "Highly Stressed", mood 3 is "Neutral", sleep 0 and sleep 6 give `''` |
| WellnessConfig.TableShape | src/app/shared/wellnessConfig.ts:10-47 | Six distinct names with five non-empty labels each; sleep, diet and mood are standard, the rest inverted |

## Left out

- Database access (Kysely over D1): each table is a sequence of rows, and a query is its filter. The model takes the rows to come back in stored order.
- Row timestamps (`created_at`, `updated_at`), `crypto.randomUUID` and `new Date()` are left out. New ids are parameters; which stores require them to be unused is stated below.
- JavaScript `Date` parsing, `setDate` in local time and `toISOString` in UTC: dates are day ordinals. A window that crosses a daylight-saving change in the server's time zone is not modelled.
- Floating-point arithmetic: loads, ratios and heart-rate values are exact, so rounding is not modelled.
- Input validation by the schema library: `history_days` outside [7, 90] is excluded by `requires` on `getReadinessView`, where the source rejects it.
- `WorkoutSessionService.TrainingLoad` and `WorkoutSessionService.SessionStore.CreateWorkoutSession` accept any integer sRPE and duration, a superset of the ranges the entry form allows; fractional values are not modelled. In the source an sRPE outside 1..10 is rejected by the router's input schema (src/trpc/routers/trainingRouter.ts:12) and by the table's check constraint, while `SessionStore.CreateWorkoutSession` appends it.
- `WellnessConfig.GetSliderColor` and `WellnessConfig.GetSliderTextColor` take integer slider values by type, so a non-integer normalised value above 1, which misses every equality test and gets the green colour in the source, is not modelled.
- `WorkoutSessionService.SessionStore.CreateWorkoutSession` takes the new id as a parameter and does not check that it is unused; the wellness store instead requires its fresh ids to be unused, which its key and id invariants need.
- The authentication middleware, tRPC transport and session handling: `getReadinessView` is modelled for an authenticated caller's tenant and user.
- `Promise.all`: the two fetches of `getReadinessView` are independent and are composed in sequence.
- The resolver library (`createResolver`, `dataView`, `list`) is not part of this model. `FateResolve` specifies assumed library behaviour, partly pinned by tests/fate/fate-resolve.test.ts; cursors and the pagination block are parameters.
- `FateUtils.GenerateSelectPaths` and `FateUtils.PathsFrom` take a `list(view)` field to expose the element view's `fields`, so that `'fields' in config` holds for it and its element fields are descended into. This is assumed library behaviour of `list`, which is not part of this model; `FateUtils.ReadinessSelectPaths` depends on it.
- A per-day ACWR history: the page consumes one, but no source produces it. The chart join is modelled over a given history.
- The page's React state, loading and error rendering, and the fetch in `useReadinessData` are not modelled. So is the gap between the payload the page declares and the one the router sends: a connection for `wellnessHistory`, and no `acwrHistory`. `DashboardChart` takes the declared shape, with `acwrHistory` possibly missing.
- `FateUtils.UnwrapConnection`: requires a value that is falsy or an object, because `'items' in v` throws on a truthy primitive. A plain object that has an `items` key but is not a connection is not modelled.
- `DailyWellnessService.WellnessStore.CreateDailyWellness`: a duplicate key returns nothing and changes nothing. The database signals this case with a unique-constraint error instead.
- `DailyWellnessService.WellnessStore.UpsertDailyWellness`: the case where the update or insert returns no row (`undefined`) is not modelled.
- `DailyWellnessService.WellnessStore.UpsertDailyWellness` is atomic in the model. In the source the lookup and the following update or insert are separate queries, so two concurrent upserts of one key can race; the unique constraint then rejects the second insert.
- Caller properties spread into the inserted rows beyond the declared input fields are not modelled.
