# Verified model of the MCP monitoring system's decision layer

This project is a Dafny model of the decision layer of the MCP monitoring system. That system is a FastAPI back end, a set of MCP servers and two small dashboard web servers that watch a host's CPU, memory, disk, network, processes and logs. The model covers the parts of the system that decide things:

- when an alert rule fires, and what happens to its incidents;
- when a threshold alert is raised or cleared;
- when a scheduled report runs next, and what a run records;
- how baselines, anomalies, trends, health scores and capacity forecasts are derived from metric samples;
- how log lines are buffered, counted and classified, and how a log file's tail is read;
- how process, service and stock listings are filtered, sorted and paginated;
- which memory recommendations the diagnostic script produces.

Sampling (psutil), HTTP, MCP, Discord and e-mail transport, threads and JSON/SQLite persistence are not modelled. Their results enter the model as parameters: metric snapshots, process tables, file contents, the current time and fresh identifiers.

There is one module per source file, or per small group of files:

| module | models |
|---|---|
| `Common`, `Sorting`, `Stats`, `HttpQuery` | Python slices, floor and ceiling division, `strip`/`upper`/`lower`, `split`; a sort on a real or text key, proved sorted and a permutation; sums, means and extremes; `int()` on query-string text |
| `AlertModels`, `AlertEngine`, `AlertRoutes` | the alert enums and pydantic models; the per-rule state machine with its incident tables (class `AlertEngine.Engine`); the `/alerts` routes |
| `ServiceController`, `Thresholds` | the two-level threshold alerter (class `ServiceController.Controller`); threshold validation and the default config |
| `ScheduleModels`, `Scheduler`, `ScheduleRoutes` | schedule validation; next-run arithmetic, CRUD, execution logs and run bookkeeping (class `Scheduler.ReportScheduler`); the `/schedules` routes |
| `Collector`, `AnalyticsRoutes` | retention windows, baselines, anomaly detection and trend classification (class `Collector.MetricsCollector`); hourly aggregation, the performance score, capacity forecasts and insights |
| `IOAnalysis` | disk and network rates from counter snapshots (class `IOAnalysis.IOAnalyzer`), bottlenecks, patterns and filesystem health |
| `Dependencies`, `HistoryHealth` | correlations, impact, bottlenecks, component health and the health index; the history manager's health score |
| `LogText`, `LogMonitor`, `LogAnalyzer` | keyword and word matching; the bounded 1000-entry log buffer with level counters (class `LogMonitor.Monitor`); the chunked tail reader and the log classifiers |
| `Monitors` | `format_bytes`, `format_uptime`, process bucketing, the service list and its pagination |
| `DashboardServer`, `DashboardOptimized` | routing, the `/api/services` listing, response compression, the paginated listing and static-file paths of both dashboard servers |
| `StockModels`, `MarketStats`, `StockRoutes` | the stock enums and models; the stock store's CRUD, import, listing and market statistics (class `StockRoutes.StockStore`) |
| `Diagnostic` | `generate_recommendations` of the VS Code memory diagnostic (class `Diagnostic.MemoryDiagnostic`) |

Where the source changes state in place, the model is a class. Each method of such a class ensures that its result and its new state equal a pure specification function applied to the old state. The properties are then proved as lemmas about those functions. Time is integer seconds, and the scheduler counts local seconds from 1970-01-01, a Thursday. Metric values are reals. Statistical primitives that the model does not compute exactly (standard deviation, correlation, regression) are function parameters of the operations that use them. Rounding is not modelled: computed figures are exact.

## Model

| member | source | states |
|---|---|---|
| AlertModels.ParseLevel | app/api/models/alerts.py:10-15 | a level parses exactly from "info", "warning", "critical" or "emergency", and the parsed level's value is the text parsed |
| AlertModels.ParseStatus | app/api/models/alerts.py:18-23 | a status parses exactly from "active", "acknowledged", "resolved" or "suppressed", and the parsed status's value is the text parsed |
| AlertModels.LevelValueInjective | app/api/models/alerts.py:10-15 | distinct levels have distinct values |
| AlertModels.RuleWithDefaults | app/api/models/alerts.py:36-53 | a rule given only its required fields is enabled, auto-resolving, with duration 60, cool-down 300, no description, no channels, no tags, and both timestamps at creation time |
| AlertModels.NewIncident | app/core/alerts/engine.py:261-276 | a new incident is ACTIVE, carries the rule's id, level, category and threshold, the observed value and the start time, has notification count 0 and nothing resolved, acknowledged, notified or suppressed |
| AlertModels.ApplyRuleUpdate | app/api/routes/alerts.py:241-250 | each supplied field of the update replaces the rule's, each unset one keeps it; id, metric, condition, category, auto-resolve and creation time never change; an empty update only refreshes `updated_at` |
| AlertModels.RuleFromCreate | app/api/routes/alerts.py:211-217 | a rule made from a create request keeps its metric and condition, is enabled and auto-resolving, and keeps the request's duration and cool-down bounds |
| AlertEngine.ConditionSemantics | app/core/alerts/engine.py:242-257 | `>` is exactly the negation of `<=` and `<` of `>=`; `==` holds exactly within 0.01 either side, and `!=` is its negation; a value equals itself |
| AlertEngine.UnknownConditionNeverFires | app/core/alerts/engine.py:256-257 | an operator outside the six known ones never breaches |
| AlertEngine.FirstBreachNeverFires | app/core/alerts/engine.py:214-217 | the first breaching observation starts the breach clock with one consecutive trigger and neither creates nor resolves an incident, whatever the duration |
| AlertEngine.FireExactlyWhenDue | app/core/alerts/engine.py:213-229 | an incident is created if and only if a breach was already running, the value still breaches, the breach has lasted `duration` and the cool-down since the last notification has passed (or nothing was notified); only then does the last notification time change, to now |
| AlertEngine.ClearResetsButKeepsNotification | app/core/alerts/engine.py:230-238 | a clearing observation ends the breach and creates nothing, keeps the last notification time, resets the consecutive count after a breach, and asks for auto-resolution if and only if a breach was running and the rule auto-resolves |
| AlertEngine.ObservePreservesConsistency | app/core/alerts/engine.py:201-240 | a rule state has a breach start exactly when its consecutive count is non-zero, before and after every observation |
| AlertEngine.ReplaySpacing | app/core/alerts/engine.py:213-229 | over any series of observations of one rule, consecutive incidents are at least `cool_down` seconds apart, even when the breach cleared in between; the first is at least `cool_down` after any earlier notification; the final state records the last incident's time |
| AlertEngine.CategoriesOf | app/core/alerts/engine.py:385-389 | the categories listed are exactly those some incident has, each listed once |
| AlertEngine.SummaryCounts | app/core/alerts/engine.py:363-373 | critical plus warning counts never exceed the active count, acknowledged ones neither, and those resolved today never exceed the total |
| AlertEngine.AvgResolutionZero | app/core/alerts/engine.py:375-383 | with no resolved incident the summary's average resolution time is 0 |
| AlertEngine.AvgResolutionBetween | app/core/alerts/engine.py:375-381 | when some incident is resolved, the summary's average resolution time lies within every pair of bounds on the resolved incidents' minutes from start to resolution, hence between the shortest and the longest |
| AlertEngine.AvgResolutionWithin | app/core/alerts/engine.py:375-381 | the mean over the resolved incidents lies within any bounds on their resolution minutes |
| AlertEngine.MeanResolutionWithin | app/core/alerts/engine.py:375-381 | the total resolution minutes of a non-empty list of incidents divided by their number lies within any bounds on each incident's minutes |
| AlertEngine.ResolvedTodayFacts | app/core/alerts/engine.py:371-373 | the number resolved today is at most the number of resolved incidents, and is positive exactly when some incident has a resolution time at or after the start of the day |
| AlertEngine.CountWeaker | app/core/alerts/engine.py:371-373 | counting by a predicate that implies another never gives more than counting by the other |
| AlertEngine.AvgResolutionNonNegative | app/core/alerts/engine.py:375-383 | when no incident is resolved before it started, the average resolution time is not negative |
| AlertEngine.SumResolutionAtLeast | app/core/alerts/engine.py:377-380 | the total resolution minutes are at least the count times any lower bound on each incident's minutes |
| AlertEngine.SumResolutionAtMost | app/core/alerts/engine.py:377-380 | the total resolution minutes are at most the count times any upper bound on each incident's minutes |
| AlertEngine.TopCategoriesFacts | app/core/alerts/engine.py:385-394 | every entry of the top categories is a category with its exact, positive count among the active incidents, and entries are ordered by count, largest first |
| AlertEngine.DefaultRulesWellFormed | app/core/alerts/engine.py:120-176 | the four default rules carry their id, are enabled with auto-resolution, compare with `>`, stay within the create-request bounds for duration and cool-down, and watch four different metrics |
| AlertEngine.InstallKeepsValid | app/core/alerts/engine.py:174-176 | installing a default rule under the next fresh id keeps the engine's tables well formed |
| AlertEngine.AcknowledgeFacts | app/core/alerts/engine.py:419-432 | acknowledging a known incident marks it ACKNOWLEDGED by the user at now, keeps it active and the tables well formed, and changes no other incident, rule or rule state; an unknown id changes nothing |
| AlertEngine.ResolveFacts | app/core/alerts/engine.py:434-448 | resolving a known incident marks it RESOLVED at now and removes it from the active table, changing no other incident; an unknown id changes nothing |
| AlertEngine.SuppressFacts | app/core/alerts/engine.py:450-458 | suppressing a known incident marks it SUPPRESSED until now plus the minutes, keeps it active, and changes no other incident; an unknown id changes nothing |
| AlertEngine.WithIncidentFacts | app/core/alerts/engine.py:259-280 | a created incident takes a fresh id, enters both tables as the incident built from the rule and value, leaves every earlier incident as it was, and keeps the tables well formed |
| AlertEngine.AutoResolvedFacts | app/core/alerts/engine.py:290-302 | auto-resolution of a rule marks resolved exactly its ACTIVE incidents in the active table, removes exactly those from it, and leaves every other incident as it was |
| AlertEngine.StepShape | app/core/alerts/engine.py:193-240 | one evaluation of a rule keeps the tables well formed and the rules unchanged, records the new rule state when the metric is present, and adds exactly one incident, under the next id, exactly when the rule fires |
| AlertEngine.StepOld | app/core/alerts/engine.py:230-234 | one evaluation resolves an incident already present exactly when it resolves and the incident is one of the rule's ACTIVE ones in the active table |
| AlertEngine.PassRuleStates | app/core/alerts/engine.py:180-191 | after the rules below `k` were evaluated, each holds the state its one observation gives, and every other rule state is untouched |
| AlertEngine.PassNewIncidents | app/core/alerts/engine.py:180-191 | incidents created by a pass take consecutive fresh ids, one per firing rule in rule order, each ACTIVE and built from its rule and observed value |
| AlertEngine.PassFiringRulesRecorded | app/core/alerts/engine.py:180-191 | every rule that fires during the pass has its incident among the new ones |
| AlertEngine.PassOldIncidents | app/core/alerts/engine.py:180-191 | an incident present before the pass is resolved by it exactly when its rule cleared while the incident was ACTIVE and active, and only then leaves the active table |
| AlertEngine.PassFacts | app/core/alerts/engine.py:180-191 | one whole pass of `evaluate_metrics`: rules unchanged, tables well formed, every rule state is its observation's, disabled rules and absent metrics change nothing, exactly one new incident per firing rule, and old incidents resolved exactly as their rules cleared |
| AlertEngine.Engine.constructor | app/core/alerts/engine.py:24-44 | a new engine holds exactly the four default rules under ids 0 to 3 and no incidents or rule states |
| AlertEngine.Engine.InitializeDefaultRules | app/core/alerts/engine.py:118-178 | with no rules, installs the four default rules under consecutive fresh ids; with any rule, changes nothing; incidents are untouched |
| AlertEngine.Engine.InstallDefaultRule | app/core/alerts/engine.py:174-176 | adds default rule `k` under the next id and nothing else |
| AlertEngine.Engine.AllIncidents | app/core/alerts/engine.py:362 | lists exactly the stored incidents |
| AlertEngine.Engine.ActiveIncidents | app/core/alerts/engine.py:407-409 | lists exactly the incidents of the active table |
| AlertEngine.Engine.RecentIncidents | app/core/alerts/engine.py:411-417 | lists exactly the stored incidents started at or after now minus `hours` hours |
| AlertEngine.Engine.CreateIncident | app/core/alerts/engine.py:259-280 | the new state is the old one with the new incident entered in both tables under a fresh id (see WithIncidentFacts) |
| AlertEngine.Engine.AutoResolveIncidents | app/core/alerts/engine.py:290-302 | the loop over the active table leaves exactly the state AutoResolvedFacts describes |
| AlertEngine.Engine.EvaluateRule | app/core/alerts/engine.py:193-240 | one observation of the rule, with the incident creation or auto-resolution it calls for (see StepShape and StepOld) |
| AlertEngine.Engine.EvaluateMetrics | app/core/alerts/engine.py:180-191 | evaluating every enabled rule in insertion order leaves the state of one pass (see PassFacts) |
| AlertEngine.Engine.AcknowledgeIncident | app/core/alerts/engine.py:419-432 | the new state is the acknowledged one AcknowledgeFacts describes |
| AlertEngine.Engine.ResolveIncident | app/core/alerts/engine.py:434-448 | the new state is the resolved one ResolveFacts describes |
| AlertEngine.Engine.SuppressIncident | app/core/alerts/engine.py:450-458 | the new state is the suppressed one SuppressFacts describes |
| AlertRoutes.MatchingMembers | app/api/routes/alerts.py:43-54 | status ACTIVE draws exactly on the active table and ignores the time window; any other status, or none, draws on the incidents started within `hours` that carry that status; a requested level narrows either |
| AlertRoutes.GetIncidentsFacts | app/api/routes/alerts.py:35-60 | the listing is refused with 422 exactly when `hours` is outside 1..168 or `limit` outside 1..200; otherwise it holds only matching incidents, newest first, `min(limit, matches)` of them, and every match when no more than `limit` match |
| AlertRoutes.GetIncidentsCutoff | app/api/routes/alerts.py:55-59 | an incident that passes the filters but is cut off by `limit` started no later than every listed one: the listing is the newest `limit` |
| AlertRoutes.GetIncident | app/api/routes/alerts.py:87-101 | succeeds exactly for a stored incident and returns it; an unknown id is 404 |
| AlertRoutes.IncidentActionFacts | app/api/routes/alerts.py:113-143 | an unknown incident is 404 and an unknown action 400, both changing nothing; acknowledge, resolve and suppress succeed; suppression without a non-zero duration lasts 60 minutes; the tables stay well formed and only resolve removes the incident from the active table |
| AlertRoutes.GetAlertRulesFacts | app/api/routes/alerts.py:154-167 | the listing holds exactly the stored rules, ordered by name |
| AlertRoutes.CreateAlertRuleFacts | app/api/routes/alerts.py:205-220 | a request outside the model's bounds is refused and changes nothing; a valid one adds exactly one enabled rule for its metric under a fresh id and changes no other rule or incident |
| AlertRoutes.UpdateAlertRuleFacts | app/api/routes/alerts.py:233-255 | an invalid update is refused, an unknown rule is 404, both changing nothing; an accepted update keeps the rule's metric, condition and category, stamps `updated_at`, and changes no other rule |
| AlertRoutes.DeleteAlertRuleFacts | app/api/routes/alerts.py:267-277 | deleting removes exactly that rule and keeps the others and all incidents; only an unknown id is refused, with 404 |
| AlertRoutes.ToggleAlertRuleFacts | app/api/routes/alerts.py:289-304 | toggling a known rule flips `enabled`, stamps `updated_at`, returns the new flag and changes no other rule; an unknown id is 404 and changes nothing |
| AlertRoutes.ToggleTwice | app/api/routes/alerts.py:298-302 | toggling twice restores the rule apart from its `updated_at` |
| AlertRoutes.AlertMetricsFacts | app/api/routes/alerts.py:316-360 | enabled rules never outnumber rules, today's incidents never outnumber the week's, active incidents are among all; a level or category appears in the statistics exactly when some active incident has it, with the number of active incidents that do |
| AlertRoutes.IncidentActionRoute | app/api/routes/alerts.py:113-143 | applied to a live engine, the result and new tables are those of IncidentActionFacts |
| AlertRoutes.CreateAlertRuleRoute | app/api/routes/alerts.py:205-220 | applied to a live engine, the result and new tables are those of CreateAlertRuleFacts |
| AlertRoutes.UpdateAlertRuleRoute | app/api/routes/alerts.py:233-255 | applied to a live engine, the result and new tables are those of UpdateAlertRuleFacts |
| AlertRoutes.DeleteAlertRuleRoute | app/api/routes/alerts.py:267-277 | applied to a live engine, the result and new tables are those of DeleteAlertRuleFacts |
| AlertRoutes.ToggleAlertRuleRoute | app/api/routes/alerts.py:289-304 | applied to a live engine, the result and new tables are those of ToggleAlertRuleFacts |
| ServiceController.DefaultTableAgreesWithRoute | mcp_servers/mcp_service_controller.py:19-28 | the controller's starting table holds, key by key, the same eight values as the threshold route's default configuration |
| ServiceController.Classify | mcp_servers/mcp_service_controller.py:102-115 | a value deserves a critical alert exactly at or above the critical threshold, a warning exactly in the band from the warning threshold up to the critical one, and no alert exactly when it is below both |
| ServiceController.Remove | mcp_servers/mcp_service_controller.py:151 | deleting a key from the alert table drops exactly that key and keeps the others' insertion order |
| ServiceController.CheckedFacts | mcp_servers/mcp_service_controller.py:92-153 | after a check, the metric's alert key is active exactly when the value deserves an alert, with that severity; missing thresholds read as 999; other keys are untouched; the history gains exactly one copy of the new alert when the severity changed and is unchanged otherwise, including when the alert clears |
| ServiceController.CriticalThenWarning | mcp_servers/mcp_service_controller.py:102-111 | a value at or above critical leaves a critical alert, and a following value in the warning band re-raises it as a warning, appending it to the history |
| ServiceController.RecheckIsIdempotent | mcp_servers/mcp_service_controller.py:103-108 | re-checking a value of the severity already active changes nothing, at any later time, so no history is appended |
| ServiceController.Controller.constructor | mcp_servers/mcp_service_controller.py:18-31 | a new controller has the default thresholds, no active alerts and an empty history |
| ServiceController.Controller.TriggerAlert | mcp_servers/mcp_service_controller.py:117-131 | the key's active alert becomes the new one, a new key joins the insertion order at the end, and one copy is appended to the history |
| ServiceController.Controller.ClearAlert | mcp_servers/mcp_service_controller.py:146-153 | a present key leaves the active table and the insertion order; the history and thresholds are untouched |
| ServiceController.Controller.CheckThresholdAlert | mcp_servers/mcp_service_controller.py:92-115 | the new alert state is the one CheckedFacts describes; thresholds are untouched |
| ServiceController.Controller.CheckSystemAlerts | mcp_servers/mcp_service_controller.py:65-90 | the new alert state is the one-snapshot check of cpu, memory, disk and then load, on the thresholds, which it leaves alone |
| ServiceController.CheckedFrame | mcp_servers/mcp_service_controller.py:92-130 | one threshold check keeps the state well formed, touches no other metric's alert and only appends to the history |
| ServiceController.CheckedKeepsSeverity | mcp_servers/mcp_service_controller.py:92-130 | a check of one metric leaves another metric's alert severity as it was |
| ServiceController.CheckedBelowWarning | mcp_servers/mcp_service_controller.py:92-130 | a figure below both thresholds clears the metric's alert and adds nothing to the history |
| ServiceController.MetricKeysDistinct | mcp_servers/mcp_service_controller.py:75-87 | the cpu, memory, disk and load alert keys are pairwise distinct |
| ServiceController.UsageCheckedFrame | mcp_servers/mcp_service_controller.py:75-82 | after the cpu, memory and disk checks the state is well formed, other alerts are untouched and the history is an extension of the old one |
| ServiceController.UsageCheckedFacts | mcp_servers/mcp_service_controller.py:75-82 | after the usage checks each of cpu, memory and disk has an active alert exactly when its figure (0 when absent) deserves one, with that severity |
| ServiceController.SystemCheckedFacts | mcp_servers/mcp_service_controller.py:65-90 | after a snapshot all four metrics have the severity their figures deserve, the load alert is unchanged when the load check is skipped (empty list or text), other alerts are untouched and the history only grows |
| ServiceController.SystemCheckedFrame | mcp_servers/mcp_service_controller.py:65-90 | a snapshot check keeps the alert state valid, only appends to the history and leaves the alerts of metrics other than cpu, memory, disk and load as they were |
| ServiceController.SystemCheckedUsage | mcp_servers/mcp_service_controller.py:65-82 | after a snapshot the cpu, memory and disk alerts have the severity their figures deserve (a missing figure counting as 0), whatever the load reads |
| ServiceController.SystemCheckedLoad | mcp_servers/mcp_service_controller.py:83-90 | after a snapshot the load alert has the severity the first load figure deserves; when the load is an empty list or empty text it is left exactly as it was |
| ServiceController.LoadTextNeverAlerts | mcp_servers/mcp_service_controller.py:84-87 | with `load_avg` as the system summary's text and positive load thresholds, no load alert is left active (unless an earlier one survives an empty text) and the load check adds nothing to the history |
| ServiceController.DefaultLoadTextNeverAlerts | mcp_servers/mcp_service_controller.py:84-87 | under the default thresholds the summary's text never leaves a load alert active |
| ServiceController.LoadListAlerts | mcp_servers/mcp_service_controller.py:84-87 | with the load figures as a non-empty list, the load alert has the severity of the first figure, so a load at or above the warning threshold is active |
| ServiceController.Controller.UpdateAlertThresholds | mcp_servers/mcp_service_controller.py:283-298 | supplied keys take the new values and every other key keeps its value; the alerts are untouched; the result is whether saving succeeded |
| ServiceController.Controller.GetCurrentAlerts | mcp_servers/mcp_service_controller.py:310-312 | lists exactly the active alerts, one per active key |
| Thresholds.DefaultThresholdsFacts | app/api/routes/threshold.py:26-35 | the default configuration satisfies the field bounds, and warning is below critical in every category |
| Thresholds.ConfigDictShape | app/api/routes/threshold.py:102-119 | a configuration has exactly the keys cpu, memory, disk and load, each holding exactly `warning` and `critical` with the record's values |
| Thresholds.LoadThresholds | app/api/routes/threshold.py:20-38 | a stored configuration is returned as it is and nothing is saved; with none stored, the defaults are returned and also saved |
| Thresholds.UpdateThresholdsFacts | app/api/routes/threshold.py:73-119 | an update is accepted exactly when every field is within its bounds (0..100 for percentages, at least 0 for load) and warning is below critical in all four categories; the accepted configuration copies the request's values and is within bounds; a refusal is 400 with the first failing category in the order cpu, memory, disk, load, or 422 for a bound |
| ScheduleModels.WeekdayIndex | app/core/scheduler.py:174-177 | every week day maps to a number from 0 to 6 |
| ScheduleModels.WeekdayTableFacts | app/api/models/schedule.py:24-32 | the weekday table is a bijection between the seven `WeekDay` values and 0..6 (Monday 0), and its keys are exactly the enumeration's values |
| ScheduleModels.WeekDayValueInjective | app/api/models/schedule.py:24-32 | distinct week days have distinct values |
| ScheduleModels.SecondsOfDay | app/core/scheduler.py:164 | a time parses exactly when it matches `^([01]?[0-9]\|2[0-3]):[0-5][0-9]$`, and then gives a whole minute within the day |
| ScheduleModels.TimePatternBounds | app/api/models/schedule.py:45 | a time of the pattern has an hour from 0 to 23 and a minute from 0 to 59 |
| ScheduleModels.FormatTimeRoundTrip | app/api/models/schedule.py:45 | every hour 0..23 and minute 0..59, written as zero-padded `HH:MM`, matches the pattern and reads back as the same hour and minute |
| ScheduleModels.TimePatternIsFormatted | app/api/models/schedule.py:45 | conversely, every string of the pattern is the zero-padded form of its hour and minute, or that form without the leading zero of an hour below ten |
| ScheduleModels.NewSchedule | app/api/models/schedule.py:34-67 | a schedule made from a create request keeps its name, type, time, days and interval, and is ACTIVE with run count 0, no last or next run, and both timestamps at creation |
| ScheduleModels.ApplyScheduleUpdate | app/core/scheduler.py:116-121 | each supplied field replaces the schedule's and each absent one keeps it; id, creation time and run history never change; `updated_at` becomes now |
| ScheduleModels.StatusOnlyUpdate | app/api/routes/schedule.py:135 | an update that carries only a status changes the status and `updated_at` and nothing else |
| Scheduler.Weekday | app/core/scheduler.py:185 | every day has a weekday number from 0 to 6 |
| Scheduler.MidnightBounds | app/core/scheduler.py:168 | every time lies within the day that starts at its midnight |
| Scheduler.TimeOnDay | app/core/scheduler.py:168 | a day's midnight plus a time of day falls on that day, at that time of day |
| Scheduler.WeekdayPeriodic | app/core/scheduler.py:184-185 | weekdays repeat every seven days |
| Scheduler.WeekdayWithinAWeek | app/core/scheduler.py:183-185 | every weekday occurs within any seven consecutive days |
| Scheduler.Targets | app/core/scheduler.py:179 | the target list has one weekday number per listed day, in order |
| Scheduler.NextRunDefined | app/core/scheduler.py:161-203 | a next run is computed exactly when the time parses, a weekly schedule has a day list and an hourly one has an interval; otherwise the source raises |
| Scheduler.NextRunDependsOnTiming | app/core/scheduler.py:161-203 | the next run depends only on the type, time, day list and interval, not on the status or run history |
| Scheduler.DailyNextRun | app/core/scheduler.py:166-170 | DAILY: today at the schedule's time when that is strictly after now, else tomorrow at that time; so strictly after now, at most a day later, and the first time after now with that time of day |
| Scheduler.WeeklySearchFacts | app/core/scheduler.py:182-193 | the search from offset `i` ends at the schedule's time of day, after now, no more than seven days on; below seven days on a listed weekday; no earlier offset was a hit |
| Scheduler.WeeklySearchWindow | app/core/scheduler.py:182-193 | with at least one listed day the search ends on a listed weekday at most seven days after now |
| Scheduler.WeeklySearchFirst | app/core/scheduler.py:183-189 | no time strictly between now and the search's result at the schedule's time of day falls on a listed weekday |
| Scheduler.WeeklyNextRun | app/core/scheduler.py:172-193 | WEEKLY with a non-empty day list: the first time strictly after now on a listed weekday at the schedule's time, at most seven days ahead; with an empty list, today's date plus seven days at that time |
| Scheduler.HourlyAndCustomNextRun | app/core/scheduler.py:195-201 | HOURLY: now plus `interval_hours`, not aligned to the schedule's time; CUSTOM: tomorrow at the schedule's time, so after now and within two days |
| Scheduler.ListSchedulesFacts | app/core/scheduler.py:148-150 | the list holds exactly the stored schedules, in insertion order, each once |
| Scheduler.GetSchedule | app/core/scheduler.py:144-146 | finds a schedule exactly when its id is stored, and returns it |
| Scheduler.RegisteredFacts | app/core/scheduler.py:205-227 | registration raises exactly when an ACTIVE weekly schedule has no day list; otherwise every job belongs to an ACTIVE, non-custom schedule and matches its type, time and interval; each ACTIVE daily and hourly schedule has its job and each ACTIVE weekly one a job per listed day |
| Scheduler.OperationsPreserveValidity | app/core/scheduler.py:92-142 | create, update and delete keep every schedule stored under its own id, below the next fresh id |
| Scheduler.CreatedFacts | app/core/scheduler.py:92-107 | a create that passes validation stores one new schedule under a fresh id, ACTIVE, never run, with its computed next run, and changes no other schedule or log; one that fails validation changes nothing |
| Scheduler.UpdatedFacts | app/core/scheduler.py:109-128 | an unknown id is 404 with no change; on a known id only that schedule changes, taking the supplied fields, with `next_run` recomputed when possible; when the next run cannot be computed the assignments stay and the call fails with 500 |
| Scheduler.DeletedFacts | app/core/scheduler.py:130-142 | an unknown id reports false with no change; a known one is removed and nothing else changes |
| Scheduler.ExecutionLogsFacts | app/core/scheduler.py:152-159 | the result holds only the given schedule's logs, in original order, as the last `min(limit, n)` of them for a positive limit; a limit of 0 returns them all |
| Scheduler.PersistedLogsFacts | app/core/scheduler.py:82 | the saved logs are the last `min(100, n)` logs, all of them when there are at most 100 |
| Scheduler.RanFacts | app/core/scheduler.py:239-294 | a run of an unknown id changes nothing. A completed send appends one log with the reported success (false when absent), sets `last_run` to the start, counts the run and recomputes `next_run`, whatever the send reported; when the next run cannot be computed a second, failed log follows and the run is not counted. A raised run appends one failed log and leaves the schedule as it was. Earlier logs and other schedules are kept |
| Scheduler.ReportScheduler.constructor | app/core/scheduler.py:27-54 | a new scheduler has no schedules, no logs and is not running |
| Scheduler.ReportScheduler.SetupScheduler | app/core/scheduler.py:205-227 | the jobs registered for the listed schedules, in list order, or failure where the source raises (see RegisteredFacts) |
| Scheduler.ReportScheduler.CreateSchedule | app/core/scheduler.py:92-107 | the result and the new state are those CreatedFacts describes |
| Scheduler.ReportScheduler.UpdateSchedule | app/core/scheduler.py:109-128 | the result and the new state are those UpdatedFacts describes |
| Scheduler.ReportScheduler.DeleteSchedule | app/core/scheduler.py:130-142 | the result and the new state are those DeletedFacts describes |
| Scheduler.ReportScheduler.RunScheduleTask | app/core/scheduler.py:229-294 | the new state is the run bookkeeping RanFacts describes; the running flag is untouched |
| Scheduler.ReportScheduler.Start | app/core/scheduler.py:331-347 | starting sets the running flag and registers the jobs; a second start while running does nothing; the table is untouched |
| Scheduler.ReportScheduler.Stop | app/core/scheduler.py:349-358 | stopping clears the running flag and keeps the table |
| ScheduleRoutes.GetScheduleRoute | app/api/routes/schedule.py:49-66 | succeeds exactly for a stored schedule and returns it; otherwise 404 |
| ScheduleRoutes.ExecuteScheduleRoute | app/api/routes/schedule.py:109-129 | accepted exactly for a stored schedule; otherwise 404 |
| ScheduleRoutes.UnknownScheduleIsNotFound | app/api/routes/schedule.py:53-55 | get, update, delete, execute, pause, resume and logs all answer 404 for an unknown id and change nothing |
| ScheduleRoutes.SetStatusFacts | app/api/routes/schedule.py:131-167 | a status-only update of a known schedule sets exactly the status and `updated_at`, recomputes `next_run` when possible, and changes no other schedule |
| ScheduleRoutes.PauseResumeAreStatusUpdates | app/api/routes/schedule.py:131-165 | pause and resume are the status-only updates to PAUSED and ACTIVE, and leave the schedule with that status |
| ScheduleRoutes.UpcomingFacts | app/api/routes/schedule.py:219-227 | every upcoming entry is an ACTIVE schedule's next run, and every ACTIVE schedule with a next run has its entry |
| ScheduleRoutes.StatusCountsPartition | app/api/routes/schedule.py:210-213 | the active, paused and inactive counts add up to the number of schedules |
| ScheduleRoutes.OverviewCounts | app/api/routes/schedule.py:207-239 | the overview's status counts add up to its total, the recent logs are the last ten, and the running flag is reported as it is |
| ScheduleRoutes.SoonestFacts | app/api/routes/schedule.py:220-238 | at most five entries, all drawn from the input, in ascending order of next run; all of them when there are at most five |
| ScheduleRoutes.OverviewNextExecutions | app/api/routes/schedule.py:219-238 | at most five upcoming executions, all of ACTIVE schedules with a next run, in ascending order; all of them when there are no more than five |
| ScheduleRoutes.SoonestCutoff | app/api/routes/schedule.py:230-238 | an upcoming execution left out of the first five is due no earlier than every one kept |
| ScheduleRoutes.OverviewSoonestCutoff | app/api/routes/schedule.py:219-238 | an active schedule with a next run whose execution is not among the overview's five is due no earlier than every listed execution |
| Collector.ParseMetric | app/core/analytics/collector.py:233-238 | a name is a metric key of a sample exactly when it names one of the eleven `MetricData` fields, and then names that field |
| Collector.MetricNameRoundTrip | app/api/models/metrics.py:9-23 | every metric's key is a sample key and reads back as the same metric |
| Collector.RecentData | app/core/analytics/collector.py:216-219 | the window holds exactly the samples no older than `hours` hours, and no more samples than the store |
| Collector.RecentDataIsSuffix | app/core/analytics/collector.py:216-219 | for samples stored in time order the window is a suffix of the store |
| Collector.RecentDataMonotone | app/core/analytics/collector.py:216-219 | a wider window keeps every sample a narrower one keeps |
| Collector.HistoricalRows | app/core/analytics/collector.py:221-243 | one row per sample of the window |
| Collector.HistoricalRowFacts | app/core/analytics/collector.py:228-241 | each row carries its sample's timestamp and values; without a metric list it has every metric key, with one exactly the requested names that are metric keys |
| Collector.RowsOf | app/core/analytics/collector.py:228-243 | the loop builds exactly the historical rows of the window |
| Collector.Classify | app/core/analytics/collector.py:281-286 | stable exactly when the change is under 5% either way, rising when it is at least 5% up, falling when at least 5% down |
| Collector.RegressionDenominator | app/core/analytics/collector.py:298-304 | over two or more time points the least-squares denominator is positive, so the fallback to the average is never taken there |
| Collector.LinearPredictionOfLine | app/core/analytics/collector.py:292-307 | points on a line `a + b*x` are extrapolated along it: the prediction is `a + b*n` |
| Collector.Values | app/core/analytics/collector.py:261 | one value per sample, the sample's value of that metric |
| Collector.TrendFacts | app/core/analytics/collector.py:267-289 | with two or more values both halves are non-empty, the percentage compares the halves' means (0 when the first is 0) and classifies the direction; the average lies between the minimum and maximum, which are values of the series; the deviation is the sample deviation |
| Collector.TrendAnalysis | app/core/analytics/collector.py:245-256 | no trends for fewer than two samples, otherwise one trend per analysed metric |
| Collector.TrendAnalysisStep | app/core/analytics/collector.py:260-324 | the list of trends grows by one metric's trend per step of the loop |
| Collector.TrendAnalysisFacts | app/core/analytics/collector.py:260-324 | the k-th trend describes the k-th analysed metric, its direction classifies its own percentage and its average lies between its minimum and maximum |
| Collector.SeverityOf | app/core/analytics/collector.py:351-356 | high exactly when the score exceeds 3, medium when it is in (2, 3], low otherwise |
| Collector.AnomalyAt | app/core/analytics/collector.py:338-371 | an anomaly is recorded exactly when the value is outside the baseline's band; it carries the sample's time, the value, the baseline average as expected value, the severity of the unclamped score, a score clamped to at most 1, and the direction of the deviation |
| Collector.AnomaliesIn | app/core/analytics/collector.py:337-373 | at most one anomaly per checked metric |
| Collector.AnomaliesInFacts | app/core/analytics/collector.py:337-373 | every recorded anomaly belongs to a checked metric with a baseline and lies outside that band; conversely every checked metric whose value is outside its band is recorded |
| Collector.WithinBandIsNormal | app/core/analytics/collector.py:346-349 | a sample inside every band records no anomaly |
| Collector.BaselineFacts | app/core/analytics/collector.py:410-427 | the band is mean ± two deviations with the lower edge clamped at 0, confidence 0.95, the sample count and update time recorded; for non-negative samples the mean lies inside the band |
| Collector.BaselineKeepsValid | app/core/analytics/collector.py:418-429 | installing a fresh baseline keeps every deviation non-negative and every anomaly score's divisor non-zero |
| Collector.SetBaselinesFacts | app/core/analytics/collector.py:404-429 | after the loop the listed metrics have fresh baselines over the data, every other baseline is unchanged, and the keys are the old ones plus the listed metrics |
| Collector.UpdatedBaselinesFacts | app/core/analytics/collector.py:389-432 | with fewer than 24 samples in the last seven days nothing changes; otherwise the four metrics get baselines and every other one is kept |
| Collector.RenewedBaseline | app/core/analytics/collector.py:392-429 | a renewed baseline is the band over the last week's samples of that metric |
| Collector.CollectedFacts | app/core/analytics/collector.py:187-199 | collecting appends the sample, keeps every old anomaly and adds at most four, and leaves the baselines alone unless they are due |
| Collector.MetricsCollector.constructor | app/core/analytics/collector.py:22-45 | a collector starts with no samples, baselines or anomalies |
| Collector.MetricsCollector.CleanupOldData | app/core/analytics/collector.py:206-214 | only samples within the 30-day retention remain; baselines and anomalies are untouched |
| Collector.MetricsCollector.GetHistoricalData | app/core/analytics/collector.py:221-243 | the rows of the requested window, none when the window is empty |
| Collector.MetricsCollector.GetTrendAnalysis | app/core/analytics/collector.py:245-326 | the trend analysis of the requested window |
| Collector.MetricsCollector.DetectAnomalies | app/core/analytics/collector.py:328-374 | the sample's anomalies are appended and nothing else changes |
| Collector.MetricsCollector.ShouldUpdateBaselines | app/core/analytics/collector.py:376-387 | true exactly when there are no baselines or one is at least 24 hours old |
| Collector.MetricsCollector.UpdateBaselines | app/core/analytics/collector.py:389-432 | the baselines become the renewed ones over the stored samples, samples and anomalies are untouched, and every deviation stays non-negative |
| Collector.MetricsCollector.CollectMetrics | app/core/analytics/collector.py:187-199 | the new state is the sample appended, checked against the current baselines, and the baselines renewed when due |
| Collector.MetricsCollector.GetAnomalies | app/core/analytics/collector.py:434-437 | exactly the stored anomalies no older than `hours` hours |
| Stats.SeqMinMax | app/core/analytics/collector.py:268-269 | `min` and `max` are values of the series, at or below and at or above every value |
| Stats.MeanBounds | app/core/analytics/collector.py:267-269 | the mean lies between the minimum and the maximum |
| Stats.MeanBetween | app/api/routes/analytics.py:383-385 | a mean of values within [lo, hi] is within [lo, hi] |
| Stats.MeanNonNegative | app/core/analytics/collector.py:411-416 | a mean of non-negative values is non-negative |
| AnalyticsRoutes.StripFacts | app/api/routes/analytics.py:41 | the stripped text has only characters of the original and neither starts nor ends with whitespace |
| AnalyticsRoutes.MetricsParam | app/api/routes/analytics.py:39-41 | no metric list exactly when the parameter is absent or empty |
| AnalyticsRoutes.MetricsParamFacts | app/api/routes/analytics.py:40-41 | every listed name is non-empty, free of commas and of surrounding whitespace; every non-blank comma-separated piece is listed; the pieces join back to the parameter |
| AnalyticsRoutes.FieldValues | app/api/routes/analytics.py:183-186 | at most one value per row, each the field's value in some row that has it |
| AnalyticsRoutes.FieldValuesEmpty | app/api/routes/analytics.py:183-188 | there are no values exactly when no row has the field |
| AnalyticsRoutes.FieldValuesFull | app/api/routes/analytics.py:183-194 | when every row has the field there is one value per row, and the last value (`current`) is the last row's |
| AnalyticsRoutes.CollectValues | app/api/routes/analytics.py:183-186 | the loop collects exactly the field's values |
| AnalyticsRoutes.HourOf | app/api/routes/analytics.py:301-302 | the hour key is a whole hour at or before the time, less than an hour earlier |
| AnalyticsRoutes.DistinctHours | app/api/routes/analytics.py:299-306 | the grouping's keys, each once: exactly the hours of the rows |
| AnalyticsRoutes.SortedHoursFacts | app/api/routes/analytics.py:310 | the sorted hour keys are strictly increasing, no more than the rows, and exactly the rows' hours |
| AnalyticsRoutes.AggregatedHours | app/api/routes/analytics.py:293-328 | at most one point per row, their hours strictly increasing and exactly the hours of the rows |
| AnalyticsRoutes.AggregatedFields | app/api/routes/analytics.py:311-326 | a numeric field of a point is present exactly when some row of that hour has it, and then holds the mean of those rows' values |
| AnalyticsRoutes.GroupedStep | app/api/routes/analytics.py:300-306 | adding one row to its hour's group (a new group for a new hour) keeps every group exactly the rows of its hour, in order |
| AnalyticsRoutes.AggregateByHour | app/api/routes/analytics.py:293-328 | the method's output is the hourly aggregation of the rows |
| AnalyticsRoutes.AverageGroups | app/api/routes/analytics.py:309-328 | averaging the exact grouping in hour order gives the hourly aggregation |
| AnalyticsRoutes.MetricsOverviewFacts | app/api/routes/analytics.py:177-196 | for unfiltered rows the overview is empty exactly when there are none, otherwise it describes all four metrics, each with the last row's value as `current` and its average between min and max |
| AnalyticsRoutes.Penalty | app/api/routes/analytics.py:339-352 | a deduction is never negative and is positive only when the metric is described and its current value exceeds the limit |
| AnalyticsRoutes.PerformanceScoreOf | app/api/routes/analytics.py:331-361 | the score lies in [0, 100]; 0 without an overview; otherwise 100 less the deductions when that lies in [0, 100], and 0 when it is below |
| AnalyticsRoutes.HealthyScore | app/api/routes/analytics.py:336-361 | nothing over its limit and only low anomalies: full marks |
| AnalyticsRoutes.ScoreMonotone | app/api/routes/analytics.py:355-361 | one more anomaly never raises the score |
| AnalyticsRoutes.CalculatePerformanceScore | app/api/routes/analytics.py:331-361 | the step-by-step deduction yields the performance score, within [0, 100] |
| AnalyticsRoutes.ActionFor | app/api/routes/analytics.py:401-408 | the four recommendation tiers partition the predictions: urgent above 90 at 30 days, expansion in (80, 90], watch when the 7-day prediction exceeds 85, normal otherwise |
| AnalyticsRoutes.ForecastOf | app/api/routes/analytics.py:364-421 | no forecast below seven values; otherwise the current value is the last one, both predictions follow the same daily rate, the action is the tier of the predictions, and the confidence is values/720 capped at 0.95 |
| AnalyticsRoutes.ExhaustionFacts | app/api/routes/analytics.py:394-398 | an exhaustion date exists exactly when the daily rate is positive and the line reaches 95 after more than 0 and fewer than 365 days; the line is at 95 on that day; a value already at 95 or more has none |
| AnalyticsRoutes.DailyChangeRateBounds | app/api/routes/analytics.py:382-385 | values within [lo, hi] change by at most (hi - lo)/7 a day either way |
| AnalyticsRoutes.GenerateCapacityForecast | app/api/routes/analytics.py:364-421 | the forecast over the metric's values collected from the rows |
| AnalyticsRoutes.Forecasts | app/api/routes/analytics.py:236-239 | at most one forecast per metric |
| AnalyticsRoutes.CapacityForecastAsWritten | app/api/routes/analytics.py:222-253 | as written: too little data (under 24 rows) fails, and always with status 500 |
| AnalyticsRoutes.InsufficientDataIs500 | app/api/routes/analytics.py:226-253 | with no data the route answers 500 with the wrapped message, where 400 is meant |
| AnalyticsRoutes.CapacityForecastIntended | app/api/routes/analytics.py:224-248 | under 24 rows is a 400 with the insufficient-data message; otherwise at most three forecasts, counted, based on 1 to 30 days |
| AnalyticsRoutes.CapacityForecastVersionsAgree | app/api/routes/analytics.py:222-248 | both versions agree whenever there is enough data |
| AnalyticsRoutes.FullRowsForecastAll | app/api/routes/analytics.py:233-239 | with at least 24 unfiltered rows all three metrics are forecast |
| AnalyticsRoutes.PerformanceInsights | app/api/routes/analytics.py:424-455 | nothing without data; otherwise a cpu insight exactly when the latest cpu exceeds 85 and a memory one exactly when the latest memory exceeds 90 (missing reads as 0), all high impact |
| AnalyticsRoutes.AnomalyInsights | app/api/routes/analytics.py:458-476 | one high-impact insight counting the high-severity anomalies when there is any, none otherwise |
| AnalyticsRoutes.TrendInsightsFacts | app/api/routes/analytics.py:479-496 | exactly the rising cpu or memory trends of more than 20% give an insight, each medium impact with confidence 0.8, at most one per trend |
| AnalyticsRoutes.NotableRises | app/api/routes/analytics.py:484 | a trend classified by its own change that passes the filter rises by more than 20% |
| AnalyticsRoutes.GenerateTrendInsights | app/api/routes/analytics.py:479-496 | the loop yields the trend insights |
| AnalyticsRoutes.InsightKeyIsLexicographic | app/api/routes/analytics.py:273-276 | for confidences within [0, 1] the single key orders insights as the tuple (impact rank, confidence) does |
| AnalyticsRoutes.SortedInsights | app/api/routes/analytics.py:273-276 | in a list sorted by the key, descending, no insight precedes one of higher impact, or of equal impact and higher confidence |
| AnalyticsRoutes.SystemInsightsOrder | app/api/routes/analytics.py:268-276 | the insights are a permutation of the generated ones ordered by impact, then confidence, highest first |
| AnalyticsRoutes.HistoricalView | app/api/routes/analytics.py:30-66 | `hours` outside 1..168 is refused with 422; otherwise the count equals the points returned, which are no more than the window's samples |
| AnalyticsRoutes.HistoricalRoute | app/api/routes/analytics.py:37-61 | the route answers the historical view of the collector's samples |
| AnalyticsRoutes.SummaryRoute | app/api/routes/analytics.py:161-216 | out-of-range hours are refused; otherwise the summary of the window's rows, trends and anomalies |
| AnalyticsRoutes.SummaryFacts | app/api/routes/analytics.py:167-209 | the summary counts the window's samples and anomalies, its score is in [0, 100], an empty window gives no overview and score 0, otherwise all four metrics are described with the latest sample's values |
| AnalyticsRoutes.ForecastEach | app/api/routes/analytics.py:236-239 | the loop collects exactly the forecasts that exist, in metric order |
| AnalyticsRoutes.CapacityForecastRoute | app/api/routes/analytics.py:219-248 | the route answers the intended capacity forecast over the last 30 days of samples |
| AnalyticsRoutes.InsightsRoute | app/api/routes/analytics.py:256-285 | the insights of the last 24 hours, sorted; the report counts them and its high-impact count counts the high-impact ones |
| AnalyticsRoutes.NewestFirst | app/api/routes/analytics.py:143 | a list sorted by timestamp, descending, has non-increasing timestamps |
| AnalyticsRoutes.PickedAnomalies | app/api/routes/analytics.py:129-133 | exactly the anomalies of the window, of the given severity when a non-empty one is given |
| AnalyticsRoutes.AnomalyView | app/api/routes/analytics.py:122-158 | out-of-range hours are refused; otherwise a permutation of the picked anomalies, newest first, with their count |
| IOAnalysis.DiskCounters | app/core/analytics/io_analyzer.py:184-191 | one (read, write) counter pair per disk, named by its device |
| IOAnalysis.NetCounters | app/core/analytics/io_analyzer.py:220-227 | one (received, sent) counter pair per interface, named by the interface |
| IOAnalysis.ByName | app/core/analytics/io_analyzer.py:184-185 | the dictionary's keys are exactly the names listed, each mapped to an entry of that name |
| IOAnalysis.Names | app/core/analytics/io_analyzer.py:187 | the iteration covers exactly the names listed |
| IOAnalysis.Gain | app/core/analytics/io_analyzer.py:190-191 | the gain is at least the difference and is 0 when the counter did not grow (a reset) |
| IOAnalysis.DeltaSumOfSame | app/core/analytics/io_analyzer.py:187-193 | unchanged counters transfer nothing |
| IOAnalysis.DeltaSumOfNew | app/core/analytics/io_analyzer.py:188 | names the previous snapshot lacks contribute nothing |
| IOAnalysis.Rates | app/core/analytics/io_analyzer.py:195-200 | both rates are non-negative |
| IOAnalysis.RatesOfUnchanged | app/core/analytics/io_analyzer.py:184-200 | a snapshot compared with itself, or with one sharing no name, gives zero rates |
| IOAnalysis.NamesHaveEntries | app/core/analytics/io_analyzer.py:184-189 | every iterated name has an entry in the current map |
| IOAnalysis.RatesOfNoGain | app/core/analytics/io_analyzer.py:190-200 | no gain on either counter gives zero rates |
| IOAnalysis.RatesOfSame | app/core/analytics/io_analyzer.py:184-200 | a snapshot compared with itself gives zero rates |
| IOAnalysis.RatesOfDisjoint | app/core/analytics/io_analyzer.py:184-200 | snapshots sharing no name give zero rates |
| IOAnalysis.NamesNotInLast | app/core/analytics/io_analyzer.py:185-188 | with no shared name no iterated name is in the previous map |
| IOAnalysis.SumDeltas | app/core/analytics/io_analyzer.py:187-193 | the loop sums exactly the gains of both counters |
| IOAnalysis.DiskStep | app/core/analytics/io_analyzer.py:167-202 | the first call (or one without a stored time) stores the snapshot and time and reports zero; a call with no time elapsed reports zero and changes nothing; otherwise the rates over the elapsed time, storing the new snapshot and time; the network snapshot is untouched |
| IOAnalysis.NetworkStep | app/core/analytics/io_analyzer.py:204-237 | as written, the network step keeps the disk snapshot and the stored time, reports zero on its first call or when no time has elapsed since the stored time, and otherwise the rates over that interval |
| IOAnalysis.NetworkIntervalInCycle | app/core/analytics/io_analyzer.py:54-55 | within one cycle the network rate divides by the time since that cycle's disk call |
| IOAnalysis.NetworkRateAsWritten | app/core/analytics/io_analyzer.py:212-237 | a MiB received over a minute between cycles is reported as 1000 MB/s |
| IOAnalysis.OneMiBRates | app/core/analytics/io_analyzer.py:226-235 | one MiB over `elapsed` seconds is 1/elapsed MB/s |
| IOAnalysis.NetworkStepIntended | app/core/analytics/io_analyzer.py:204-237 | as intended: zero on the first call, otherwise the rates over the time since the previous network snapshot, stored together with it |
| IOAnalysis.NetworkRateIntended | app/core/analytics/io_analyzer.py:204-237 | the same minute measured as intended gives under 1 MB/s |
| IOAnalysis.TopProcesses | app/core/analytics/io_analyzer.py:159-160 | at most ten processes are kept |
| IOAnalysis.DescendingTotals | app/core/analytics/io_analyzer.py:159 | sorted by total bytes, descending, the totals never increase |
| IOAnalysis.TopProcessesOrder | app/core/analytics/io_analyzer.py:159-160 | the kept processes come from the list in non-increasing total of bytes read and written; with ten or fewer all are kept |
| IOAnalysis.TopProcessesCutoff | app/core/analytics/io_analyzer.py:159-160 | every process left out moved no more bytes than any kept one |
| IOAnalysis.BottleneckOf | app/core/analytics/io_analyzer.py:280-388 | a bottleneck exactly when the average rate exceeds the resource's threshold (50 MB/s read, 30 write, 10 for each network direction); severity is rate/10 for disks and rate/5 for networks, capped at 10; utilization is the rate over 100 MB/s (disks) or 125 MB/s (networks), capped at 100%, and both are positive |
| IOAnalysis.DiskReads | app/core/analytics/io_analyzer.py:273 | one read rate per sample |
| IOAnalysis.DiskWrites | app/core/analytics/io_analyzer.py:274 | one write rate per sample |
| IOAnalysis.NetworkIns | app/core/analytics/io_analyzer.py:337 | one receive rate per sample |
| IOAnalysis.NetworkOuts | app/core/analytics/io_analyzer.py:338 | one send rate per sample |
| IOAnalysis.ReportedMembers | app/core/analytics/io_analyzer.py:265-388 | each checked resource gives at most one bottleneck, of that resource, with severity in (0, 10] and utilization in (0, 100] |
| IOAnalysis.ReportedExactly | app/core/analytics/io_analyzer.py:265-388 | a checked resource is reported exactly when its average rate exceeds its threshold |
| IOAnalysis.ReportedOrder | app/core/analytics/io_analyzer.py:265-388 | resources checked in increasing rank are reported in increasing rank |
| IOAnalysis.ReportAll | app/core/analytics/io_analyzer.py:249-253 | disks then networks are checked: every resource, in rank order |
| IOAnalysis.ReportedAppend | app/core/analytics/io_analyzer.py:249-253 | checking two lists one after the other reports both in turn |
| IOAnalysis.BottlenecksFacts | app/core/analytics/io_analyzer.py:239-258 | at most four bottlenecks, none without samples; each resource is reported exactly when its average exceeds its threshold, in order disk read, disk write, network in, network out |
| IOAnalysis.DiskPatterns | app/core/analytics/io_analyzer.py:460-503 | without samples nothing; otherwise read-intensive exactly when the average read exceeds three times the write, else write-intensive exactly for the reverse, else nothing |
| IOAnalysis.NetworkPatterns | app/core/analytics/io_analyzer.py:505-549 | without samples nothing; otherwise one insight for receiving and one for sending exactly when that average exceeds 20 MB/s |
| IOAnalysis.FileSystems | app/core/analytics/io_analyzer.py:390-436 | no more file systems than partitions |
| IOAnalysis.FileSystemsFacts | app/core/analytics/io_analyzer.py:396-433 | every listed file system comes from a readable partition of non-zero size; when no readable partition has size 0, every readable partition is listed |
| IOAnalysis.AnalyzeFilesystem | app/core/analytics/io_analyzer.py:390-436 | the scan's loop lists exactly the file systems of the specification |
| IOAnalysis.HealthOf | app/core/analytics/io_analyzer.py:559-589 | an insight exactly above 80% used: critical above 90%, a warning in (80, 90] |
| IOAnalysis.HealthInsights | app/core/analytics/io_analyzer.py:551-594 | at most one insight per file system |
| IOAnalysis.HealthInsightsFacts | app/core/analytics/io_analyzer.py:551-594 | exactly the file systems above 80% give an insight, critical exactly for those above 90% |
| IOAnalysis.AnalyzeFilesystemHealth | app/core/analytics/io_analyzer.py:551-594 | the loop yields the health insights of the scanned file systems |
| IOAnalysis.IOAnalyzer.constructor | app/core/analytics/io_analyzer.py:35-39 | an analyzer starts with no history and no snapshots |
| IOAnalysis.IOAnalyzer.CalculateDiskRates | app/core/analytics/io_analyzer.py:167-202 | rates and new snapshots are the disk step's; the history is untouched |
| IOAnalysis.IOAnalyzer.CalculateNetworkRates | app/core/analytics/io_analyzer.py:204-237 | rates and new snapshots are the network step's, as written; the history is untouched |
| IOAnalysis.IOAnalyzer.CollectIOMetrics | app/core/analytics/io_analyzer.py:41-76 | the sample holds the readings, the top ten processes and the disk then network rates; it is appended and the history keeps only the last 24 hours |
| IOAnalysis.IOAnalyzer.RecentMetrics | app/core/analytics/io_analyzer.py:260-263 | exactly the samples of the last `hours` hours |
| IOAnalysis.IOAnalyzer.AnalyzeIOBottlenecks | app/core/analytics/io_analyzer.py:239-258 | nothing without history; otherwise the bottlenecks of the recent samples |
| IOAnalysis.IOAnalyzer.GenerateIOInsights | app/core/analytics/io_analyzer.py:438-458 | nothing without recent samples; otherwise disk patterns, then network patterns, then file-system health |
| IOAnalysis.HistoryRetention | app/core/analytics/io_analyzer.py:70-74 | after collecting, the new sample is last and the history holds exactly the old samples of the last 24 hours and it |
| Dependencies.Column | app/core/analytics/dependency_analyzer.py:48-54 | one value per sample, the sample's value of the metric or 0 when it is missing |
| Dependencies.RowPairs | app/core/analytics/dependency_analyzer.py:88 | one pass of the inner loop visits (i, j), (i, j+1), … up to the last metric |
| Dependencies.IndexPairsFacts | app/core/analytics/dependency_analyzer.py:87-88 | the nested loops visit exactly the pairs (a, b) with `i <= a < b < n`, once each, in increasing order |
| Dependencies.Entries | app/core/analytics/dependency_analyzer.py:96 | one correlation entry per kept pair, naming the two metrics in order |
| Dependencies.EntriesAppend | app/core/analytics/dependency_analyzer.py:87-96 | the entries of two runs of pairs are the entries of each, one after the other |
| Dependencies.RowsAreFiltered | app/core/analytics/dependency_analyzer.py:81-99 | the loops' result is the list of index pairs, filtered by the correlation conditions, as entries |
| Dependencies.FilterKeepsPairsSorted | app/core/analytics/dependency_analyzer.py:87-96 | filtering keeps the pairs in visiting order |
| Dependencies.CorrelationsFromPairs | app/core/analytics/dependency_analyzer.py:90-96 | every entry is the defined coefficient of two columns of equal length above one, the earlier metric first |
| Dependencies.CorrelationsUnique | app/core/analytics/dependency_analyzer.py:87-96 | for distinct metric names each unordered pair of metrics is correlated at most once |
| Dependencies.CalculateCorrelations | app/core/analytics/dependency_analyzer.py:81-99 | the nested loops compute exactly the specified correlations |
| Dependencies.CorrelationRowStep | app/core/analytics/dependency_analyzer.py:88-96 | one round of the inner loop adds the entry of (i, j) when both columns have the same length above one and the coefficient is not NaN |
| Dependencies.CorrelatePair | app/core/analytics/dependency_analyzer.py:89-98 | the loop body gives the pair's entry or nothing |
| Dependencies.CorrelateRow | app/core/analytics/dependency_analyzer.py:88-98 | the inner loop gives metric i's row of entries |
| Dependencies.CorrelateNext | app/core/analytics/dependency_analyzer.py:88-98 | each round extends the row so far towards the whole row |
| Dependencies.StrongDependenciesFacts | app/core/analytics/dependency_analyzer.py:60-77 | each dependency comes from a correlation stronger than 0.6 in absolute value and records its strength, its sign and one dependent; every such correlation gives one |
| Dependencies.Columns | app/core/analytics/dependency_analyzer.py:48-54 | one column per examined metric, in the dictionary's order |
| Dependencies.AnalyzeResourceDependencies | app/core/analytics/dependency_analyzer.py:40-79 | the method's result is the specified dependency list |
| Dependencies.ResourceDependenciesFacts | app/core/analytics/dependency_analyzer.py:40-79 | fewer than ten samples give nothing, and no two dependencies relate the same pair of metrics |
| Dependencies.MetricsDistinct | app/core/analytics/dependency_analyzer.py:48-54 | the five examined metrics are distinct |
| Dependencies.StrongKeepsDistinct | app/core/analytics/dependency_analyzer.py:60-77 | keeping the strong correlations keeps distinct pairs distinct |
| Dependencies.ImpactOf | app/core/analytics/dependency_analyzer.py:122-242 | no analysis below the component's floor (70, 75, 80); otherwise an impact score of value/10 capped at 10, with risk critical above the upper cut, high between the cuts, medium at or below the lower cut |
| Dependencies.ResourceImpact | app/core/analytics/dependency_analyzer.py:101-120 | at most three impacts: one per component whose value reaches its floor |
| Dependencies.SaturationHours | app/core/analytics/dependency_analyzer.py:284-310 | a saturation estimate needs five samples, a positive slope over the last ten values and a latest value below 98; it is half the data points to reach 98, and below half a week |
| Dependencies.BottleneckOf | app/core/analytics/dependency_analyzer.py:259-280 | a bottleneck exactly when the latest value exceeds the threshold (85, 90, 95); it records the value and threshold, a severity in (0, 10] that is the scaled excess, and the saturation estimate |
| Dependencies.IdentifyBottlenecks | app/core/analytics/dependency_analyzer.py:244-282 | no samples give no bottleneck, and at most three are reported |
| Dependencies.BottlenecksReported | app/core/analytics/dependency_analyzer.py:250-282 | a component is reported exactly when its latest value exceeds its threshold |
| Dependencies.BottleneckUsesLatest | app/core/analytics/dependency_analyzer.py:250-267 | earlier samples change a bottleneck only through its saturation estimate |
| Dependencies.ComponentHealth | app/core/analytics/dependency_analyzer.py:373-380 | health is in [0, 100]; exactly 100 up to 70% of the threshold; at least 70 up to the threshold and below 70 above it; 0 from 100% on |
| Dependencies.Ratio | app/core/analytics/dependency_analyzer.py:378-380 | a positive fraction is positive, and at most 1 when the numerator is at most the denominator |
| Dependencies.ComponentHealthMonotone | app/core/analytics/dependency_analyzer.py:373-380 | more utilization never means more health |
| Dependencies.ComponentHealthContinuous | app/core/analytics/dependency_analyzer.py:375-380 | the three pieces meet: 100 at 70% of the threshold, 70 at the threshold from both sides |
| Dependencies.NetworkHealth | app/core/analytics/dependency_analyzer.py:350-352 | never negative, at most 100 for a non-negative load, 100 with no cores or no load, 0 from two load units per core on |
| Dependencies.StabilityTrend | app/core/analytics/dependency_analyzer.py:382-404 | stable below five samples; otherwise the mean variation of cpu and memory over the last five: stable below 0.1, improving below 0.2, declining from 0.2 |
| Dependencies.StabilityUsesLastFive | app/core/analytics/dependency_analyzer.py:388-389 | samples before the last five play no part |
| Dependencies.CriticalIssues | app/core/analytics/dependency_analyzer.py:406-428 | each issue is present exactly when its condition holds (cpu above 90, memory above 95, disk above 95, load above twice the cores), each at most once |
| Dependencies.SystemHealthIndex | app/core/analytics/dependency_analyzer.py:340-371 | the component healths use thresholds 80, 85 and 90, the network health the load, the overall score is their mean, non-negative and at most 100 for a non-negative load, with the stability trend and critical issues attached |
| Dependencies.MeanOfFour | app/core/analytics/dependency_analyzer.py:355 | the mean of the four scores is their sum over four |
| Dependencies.IdleSystemIsHealthy | app/core/analytics/dependency_analyzer.py:340-428 | a system below 70% of every threshold with no load scores 100 overall and has no critical issue |
| HistoryHealth.UsageScore | mcp_servers/mcp_history_manager.py:220-233 | the score is never negative, at most 100 for a non-negative percentage, `100 - percent` up to 100% and 0 beyond |
| HistoryHealth.HealthScoreOf | mcp_servers/mcp_history_manager.py:216-241 | no score exactly when the reported process total is zero (Python raises there); otherwise the four usage scores (zombie share for processes, missing figures as 0 and a total of 1) weighted 0.3, 0.3, 0.2 and 0.2 |
| HistoryHealth.OverallBetweenComponents | mcp_servers/mcp_history_manager.py:236-241 | the overall score lies between the lowest and the highest component score, and in [0, 100] for non-negative figures |
| HistoryHealth.MissingFiguresScoreFull | mcp_servers/mcp_history_manager.py:219-241 | with every figure missing all scores are 100 |
| HistoryHealth.NoZombiesFullProcessScore | mcp_servers/mcp_history_manager.py:231-233 | without zombie processes the process score is 100 |
| HistoryHealth.OverallMonotoneInCpu | mcp_servers/mcp_history_manager.py:219-241 | more cpu load never raises the overall score |
| LogText.RunEnd | mcp_servers/mcp_log_monitor.py:151 | a greedy run of a character class ends at the first character outside the class, or at the end |
| LogText.SearchFinds | mcp_servers/mcp_log_monitor.py:157 | `re.search` fails exactly when the pattern matches at no position, and otherwise gives the match at the leftmost matching position |
| LogText.FirstTag | mcp_servers/mcp_log_monitor.py:140-145 | an ordered table of patterns yields the tag of its first matching entry, and nothing exactly when none matches |
| LogText.TallySnoc | mcp_servers/mcp_log_analyzer.py:345 | counting one more element bumps its count by one |
| LogText.TallyPrefix | mcp_servers/mcp_log_analyzer.py:342-345 | each round of a counting loop bumps the count of one element |
| LogText.TallyCounts | mcp_servers/mcp_log_analyzer.py:341-346 | a key is counted exactly when it occurs, as often as it occurs |
| LogText.ClassCounts | mcp_servers/mcp_log_analyzer.py:341-346 | counting a classifier's answers: a key appears exactly when some element is classified as it, only listed names appear, and the counts add up to at most the number of elements |
| LogText.TallySum | mcp_servers/mcp_log_monitor.py:296-310 | when every element is one of the listed keys, their counts add up to the number of elements |
| LogMonitor.DetectLevel | mcp_servers/mcp_log_monitor.py:31-36 | ERROR exactly when an error word occurs as a whole word; WARNING when no error word but a warning word does; DEBUG when only a debug word does; INFO otherwise (including no level word at all) |
| LogMonitor.SpacedClockEnd | mcp_servers/mcp_log_monitor.py:151-153 | a match of the time part ends after its start, within the line |
| LogMonitor.MatchEnd | mcp_servers/mcp_log_monitor.py:150-154 | a match of a timestamp pattern ends after its start, within the line |
| LogMonitor.SyslogEnd | mcp_servers/mcp_log_monitor.py:151 | a match of `Mon dd hh:mm:ss` ends after its start, within the line |
| LogMonitor.DashedEnd | mcp_servers/mcp_log_monitor.py:152 | a match of `yyyy-mm-dd hh:mm:ss` ends after its start, within the line |
| LogMonitor.SlashedEnd | mcp_servers/mcp_log_monitor.py:153 | a match of `mm/dd/yyyy hh:mm:ss` ends after its start, within the line |
| LogMonitor.FirstPatternMatch | mcp_servers/mcp_log_monitor.py:156-161 | the match of the first pattern, in list order, that matches; nothing exactly when none does |
| LogMonitor.ExtractTimestamp | mcp_servers/mcp_log_monitor.py:147-161 | the timestamp is the match of the first of the three shapes that occurs in the line; none exactly when none occurs |
| LogMonitor.NoTimestamp | mcp_servers/mcp_log_monitor.py:147-161 | a line has no timestamp exactly when no shape matches at any position |
| LogMonitor.FirstMatchNone | mcp_servers/mcp_log_monitor.py:157 | a pattern finds nothing exactly when it matches at no position |
| LogMonitor.FirstMatchLeftmost | mcp_servers/mcp_log_monitor.py:157-159 | a pattern's match is the text matched at its leftmost matching position |
| LogMonitor.LeftmostAt | mcp_servers/mcp_log_monitor.py:157-159 | the group found at the leftmost position is the whole match there |
| LogMonitor.BoundedAppend | mcp_servers/mcp_log_monitor.py:39 | appending to the 1000-entry buffer puts the entry last and drops the oldest only when the buffer is full |
| LogMonitor.Counted | mcp_servers/mcp_log_monitor.py:163-176 | one more line, counted under exactly its level, with the update time set |
| LogMonitor.MatchingMembers | mcp_servers/mcp_log_monitor.py:193-197 | an entry is kept exactly when it is in the buffer and passes both filters (an empty filter passes everything) |
| LogMonitor.Reverse | mcp_servers/mcp_log_monitor.py:190 | the reversal has the same length and the entries in the opposite order |
| LogMonitor.SelectionOfReversed | mcp_servers/mcp_log_monitor.py:187-197 | filtering the reversed buffer gives the matching entries reversed |
| LogMonitor.SelectionCons | mcp_servers/mcp_log_monitor.py:193-197 | both filters keep a first entry exactly when it is selected |
| LogMonitor.TakeOfReversed | mcp_servers/mcp_log_monitor.py:190-199 | the first `count` of a reversed list are its last `count`, reversed |
| LogMonitor.CategoryPriority | mcp_servers/mcp_log_monitor.py:299-310 | a message falls in exactly one category, checked in order: failed/failure, then connection/network, then permission/access, then timeout, else other |
| LogMonitor.CategoryLabels | mcp_servers/mcp_log_monitor.py:297-310 | one category name per error entry, in order |
| LogMonitor.CategoryNameListed | mcp_servers/mcp_log_monitor.py:302-310 | every category's name is one of the five listed names |
| LogMonitor.CategoryNameInjective | mcp_servers/mcp_log_monitor.py:302-310 | distinct categories have distinct names |
| LogMonitor.ErrorPatternsAddUp | mcp_servers/mcp_log_monitor.py:296-313 | the category counts add up to the number of errors, only the five names occur, and a category appears exactly when some error falls in it |
| LogMonitor.CountCategories | mcp_servers/mcp_log_monitor.py:296-310 | the counting loop gives the tally of the errors' category names |
| LogMonitor.MostRecentErrorIsFirst | mcp_servers/mcp_log_monitor.py:291-316 | the reported `most_recent_error` is the first qualifying entry in buffer order: no entry before it is an error of the window |
| LogMonitor.ReportedErrorIsOldest | mcp_servers/mcp_log_monitor.py:291-316 | with two different errors of the window processed in turn, the reported `most_recent_error` is the first of them and not the newest |
| LogMonitor.NewestErrorIsLast | mcp_servers/mcp_log_monitor.py:127 | the newest error of the window is a qualifying entry after which no qualifying entry was appended to the buffer |
| LogMonitor.Monitor.constructor | mcp_servers/mcp_log_monitor.py:18-39 | an empty buffer and zero counters |
| LogMonitor.Monitor.ProcessLogLine | mcp_servers/mcp_log_monitor.py:109-130 | a blank line changes nothing; any other line is appended to the bounded buffer as an entry with its level and timestamp and counted under its level |
| LogMonitor.Monitor.UpdateStats | mcp_servers/mcp_log_monitor.py:163-176 | the counters become the old ones with the line counted under its level; the buffer is untouched |
| LogMonitor.Monitor.GetRecentLogs | mcp_servers/mcp_log_monitor.py:184-199 | every entry returned is buffered and passes the filters; at most `count`, none for 0, and for a positive count the last `count` matching entries, newest first |
| LogMonitor.Monitor.AnalyzeErrorPatterns | mcp_servers/mcp_log_monitor.py:286-317 | the total and the per-category counts of the window's error entries, the period, and the first such entry in buffer order |
| LogAnalyzer.Glue | mcp_servers/mcp_log_analyzer.py:325-330 | stitching an earlier chunk's pieces onto the later pieces joins one straddling line: one piece fewer than both together |
| LogAnalyzer.SplitConcat | mcp_servers/mcp_log_analyzer.py:322-330 | splitting a concatenation is splitting both parts and stitching them |
| LogAnalyzer.SplitNoSep | mcp_servers/mcp_log_analyzer.py:322 | text without a newline is a single piece |
| LogAnalyzer.TailRead | mcp_servers/mcp_log_analyzer.py:314-330 | the reading loop never moves forward |
| LogAnalyzer.TailReadStep | mcp_servers/mcp_log_analyzer.py:314-330 | one round reads the chunk of up to 8192 bytes before the position and stitches its pieces in front |
| LogAnalyzer.TailReadInvariant | mcp_servers/mcp_log_analyzer.py:314-330 | the pieces held, stitched after the unread prefix's pieces, are always the lines of the whole file |
| LogAnalyzer.ChunkKeepsLines | mcp_servers/mcp_log_analyzer.py:316-330 | reading one more chunk keeps that invariant |
| LogAnalyzer.TailAsWrittenBounds | mcp_servers/mcp_log_analyzer.py:333-334 | at most `num_lines` lines, none blank, and none for a count that is not positive |
| LogAnalyzer.SuffixOfFiltered | mcp_servers/mcp_log_analyzer.py:334 | keeping the last `n` of the non-blank lines keeps at most `n`, all non-blank |
| LogAnalyzer.AtStartAllLines | mcp_servers/mcp_log_analyzer.py:333 | once the start of the file is reached the pieces held are the file's lines, up to blank ones |
| LogAnalyzer.TailAtStart | mcp_servers/mcp_log_analyzer.py:302-334 | when the reading reaches the start of the file, the result is the last `num_lines` non-blank lines of the file |
| LogAnalyzer.StoppedEarly | mcp_servers/mcp_log_analyzer.py:314 | stopping early is safe once the whole lines read, those after the first piece, hold `num_lines` non-blank lines |
| LogAnalyzer.TailReadsAll | mcp_servers/mcp_log_analyzer.py:314 | a file that fits in one buffer, or has fewer lines than asked for, is read to its start |
| LogAnalyzer.TailTruncatesFirstLine | mcp_servers/mcp_log_analyzer.py:314-334 | as written: a one-line file of 8193 bytes asked for one line returns the line without its first byte |
| LogAnalyzer.OneLineTail | mcp_servers/mcp_log_analyzer.py:314-334 | a one-line file of 8193 bytes loses its first byte to the reader as written |
| LogAnalyzer.OneLineLast | mcp_servers/mcp_log_analyzer.py:333-334 | the last line of a one-line file is that line |
| LogAnalyzer.ReadChunk | mcp_servers/mcp_log_analyzer.py:316-330 | one round: the new position is the old less at most 8192, and the chunk's pieces are stitched in front of those held |
| LogAnalyzer.ReadTailLinesAsWritten | mcp_servers/mcp_log_analyzer.py:302-337 | the method computes the tail as the source's loop does |
| LogAnalyzer.ReadTailLines | mcp_servers/mcp_log_analyzer.py:302-337 | the corrected reader returns exactly the last `num_lines` non-blank lines of the file |
| LogAnalyzer.WordMatchAtFinds | mcp_servers/mcp_log_analyzer.py:351 | no alternative matching at a position gives no match, and a match is the text of an alternative that matches there |
| LogAnalyzer.WordMatchAtFirst | mcp_servers/mcp_log_analyzer.py:351 | the match at a position is the first alternative, in order, that matches |
| LogAnalyzer.WordSearchFinds | mcp_servers/mcp_log_analyzer.py:351-358 | the word search fails exactly when no level word occurs as a whole word in any case, and finds an occurrence of one |
| LogAnalyzer.BracketSearchFinds | mcp_servers/mcp_log_analyzer.py:352-358 | the bracketed search finds the text of a bracketed level word |
| LogAnalyzer.UpperOfMatch | mcp_servers/mcp_log_analyzer.py:358 | text equal to an upper-case word up to case upper-cases to that word |
| LogAnalyzer.BracketNeverDecides | mcp_servers/mcp_log_analyzer.py:350-358 | the second pattern never decides: when the first finds nothing the second finds nothing either |
| LogAnalyzer.FoundUpper | mcp_servers/mcp_log_analyzer.py:358 | what either search finds upper-cases to a level name |
| LogAnalyzer.ExtractedIsLevel | mcp_servers/mcp_log_analyzer.py:348-359 | whatever level is extracted is one of the seven level names, upper-case |
| LogAnalyzer.NoLevel | mcp_servers/mcp_log_analyzer.py:348-359 | a line has no level exactly when no level word occurs in it as a whole word, in any case |
| LogAnalyzer.WarningNotWarn | mcp_servers/mcp_log_analyzer.py:351 | "WARN" does not match inside "WARNING": that line's level is WARNING |
| LogAnalyzer.AnalyzeLogLevels | mcp_servers/mcp_log_analyzer.py:339-346 | the loop counts, per level, the lines that have one |
| LogAnalyzer.LogLevelCounts | mcp_servers/mcp_log_analyzer.py:339-346 | only level names are keys, a name is a key exactly when some line has that level, and the counts add up to at most the number of lines |
| LogAnalyzer.DetectErrorsWarnings | mcp_servers/mcp_log_analyzer.py:361-375 | the last 20 of the issues, one per line with an error or a warning keyword, in order |
| LogAnalyzer.ReportedIssues | mcp_servers/mcp_log_analyzer.py:361-375 | every issue reported is an input line with that line's type; every typed line is found; at most 20 are reported, the latest ones, and all when there are 20 or fewer |
| LogAnalyzer.IssuesFromLines | mcp_servers/mcp_log_analyzer.py:364-374 | each issue found is an input line with that line's type |
| LogAnalyzer.TypedLinesFound | mcp_servers/mcp_log_analyzer.py:364-374 | each line with a type gives an issue |
| LogAnalyzer.ErrorOverWarning | mcp_servers/mcp_log_analyzer.py:365-370 | a line with both kinds of keyword is an error |
| LogAnalyzer.PluralIsNoIssue | mcp_servers/mcp_log_analyzer.py:365 | keywords count only as whole words: "errors" is no issue |
| LogAnalyzer.PidTagAt | mcp_servers/mcp_log_analyzer.py:406 | a `name[pid]:` match is a word-character run of the line |
| LogAnalyzer.ColonTagAt | mcp_servers/mcp_log_analyzer.py:407 | a `name:` match is a word-character run of the line |
| LogAnalyzer.BracketTagAt | mcp_servers/mcp_log_analyzer.py:408 | a `[name]` match is a word-character run of the line |
| LogAnalyzer.SourceIsTag | mcp_servers/mcp_log_analyzer.py:402-415 | the source is a word-character run of the line, or "unknown" |
| LogAnalyzer.SourceUnknown | mcp_servers/mcp_log_analyzer.py:402-415 | when no pattern matches anywhere the source is "unknown" |
| LogAnalyzer.SourcePidFirst | mcp_servers/mcp_log_analyzer.py:405-414 | when `name[pid]:` matches anywhere, the source is its leftmost match |
| LogAnalyzer.SourceOfPidPrefix | mcp_servers/mcp_log_analyzer.py:402-415 | a syslog-style line `name[pid]: …` has `name` as its source |
| LogAnalyzer.TimeoutBeforeConnection | mcp_servers/mcp_log_analyzer.py:417-422 | the tests go in order: "Connection timeout" is a timeout |
| LogAnalyzer.FileStartsWord | mcp_servers/mcp_log_analyzer.py:427 | `\bfile` needs only a boundary in front: "filename" is a file-system error |
| LogAnalyzer.DirectoryEndsWord | mcp_servers/mcp_log_analyzer.py:427 | `directory\b` needs only a boundary behind: "subdirectory" is a file-system error |
| LogAnalyzer.FileInsideWord | mcp_servers/mcp_log_analyzer.py:427-430 | "file" inside a word does not count: "profile" is general |
| LogAnalyzer.ShortFileReadsAll | mcp_servers/mcp_log_analyzer.py:314 | a file with fewer lines than asked for is read back to its start |
| LogAnalyzer.LevelsAreLevelWords | mcp_servers/mcp_log_analyzer.py:341-346 | every level counted is one of the level names |
| Monitors.DividedClosedForm | app/core/monitors/base.py:18-21 | repeated division by 1024 is one division by the matching power of 1024 |
| Monitors.UnitIndex | app/core/monitors/base.py:18-22 | the unit chosen is the first of the five tries at which the value is below 1024, and PB when all five fail |
| Monitors.FormatBytes | app/core/monitors/base.py:16-22 | the value shown is the count divided by 1024 once per unit skipped, with the unit at which it first fell below 1024 |
| Monitors.BytesUnitRange | app/core/monitors/base.py:16-22 | a non-negative count is shown in the unit whose power of 1024 it reaches and whose next power it stays below; B exactly for counts below 1024; the value is at least 1 in every unit but B and below 1024 in every unit but PB |
| Monitors.FormatUptime | app/core/monitors/base.py:24-30 | hours below 24 and minutes below 60, and the days are the whole days of the uptime |
| Monitors.UptimeAddsUp | app/core/monitors/base.py:24-30 | days, hours and minutes together make up the uptime to within the last minute |
| Monitors.HourOfDay | app/core/monitors/base.py:28-29 | the minutes are taken from the seconds into the hour, which agree with those into the hour of the day |
| Monitors.InBucket | app/core/monitors/base.py:104-119 | a bucket never counts more processes than there are |
| Monitors.GetProcessInfo | app/core/monitors/base.py:90-127 | the total is every process, and each bucket counts the processes whose status could be read and falls in it (idle counts as sleeping, unknown statuses as other) |
| Monitors.BucketsAddUp | app/core/monitors/base.py:104-119 | each readable process is in exactly one bucket: the buckets add up to the readable processes, at most the total |
| Monitors.GetServicesInfo | app/core/monitors/base.py:211-236 | the total counts the processes with a name and a pid above 1, and the list is the busiest 100 of them by CPU |
| Monitors.ServicesInfoFacts | app/core/monitors/base.py:214-236 | at most 100 services, each from a listed process with a name and a pid above 1, in descending CPU order, and all of them when there are no more than 100 |
| Monitors.ServicesInfoCutoff | app/core/monitors/base.py:219-236 | a service with a name and pid above 1 that is not among the 100 listed uses no more CPU than every listed one |
| Monitors.ListedServices | app/core/monitors/base.py:219-220 | kernel processes (pid 0 or 1) and nameless ones are never listed |
| Monitors.CpuOrdered | app/core/monitors/base.py:232 | a list sorted by the CPU key, descending, has non-increasing CPU figures |
| Monitors.PageStart | app/core/monitors/base.py:272 | a page from 1 on of a non-negative size starts at a non-negative index |
| Monitors.FilteredMembers | app/core/monitors/base.py:256-259 | the filters keep exactly the services whose lower-cased name contains the search and whose status equals the status filter, up to case; an empty or missing filter keeps everything |
| Monitors.SortedServicesMembers | app/core/monitors/base.py:262-267 | every sort key keeps the same services, as many as before |
| Monitors.PaginatedFacts | app/core/monitors/base.py:245-281 | an error from the listing is passed back unchanged; otherwise the total is the number of matching services, every service shown matches the filters and came from the listing, and the page number and size are echoed |
| Monitors.SliceMembers | app/core/monitors/base.py:274 | a slice holds only elements of the list |
| Monitors.PageWindow | app/core/monitors/base.py:270-274 | for a page from 1 on and a size from 0 on, the page is entries (page-1)*size up to page*size of the sorted matches, cut at their end, so at most `size` of them |
| Monitors.PageSortedByCpu | app/core/monitors/base.py:262-263 | sorted by CPU, a page lists its services busiest first |
| DashboardServer.RouteOfFacts | web_dashboard/mcp_web_server.py:18-39 | a path is answered exactly when it is one of the seven fixed paths, each by its own handler; every other path gets 404, and the basic server has no paginated listing and serves no static files |
| DashboardServer.Limited | web_dashboard/mcp_web_server.py:768-770 | a positive limit keeps the first `limit` entries (all of them when there are fewer); a zero or negative limit keeps everything |
| DashboardServer.ServeServicesInfo | web_dashboard/mcp_web_server.py:647-783 | the reply of the two-pass listing is the one the listing specification gives for the query and the process table |
| DashboardServer.FirstPass | web_dashboard/mcp_web_server.py:672-688 | the first pass keeps, in table order, the running and sleeping processes with a name that contains no system-process name |
| DashboardServer.SecondPass | web_dashboard/mcp_web_server.py:693-749 | the second pass gives an entry for each candidate still readable, with missing figures as 0 and a missing name as Unknown, less the idle ones (no CPU, at most 0.1 % memory) when they are hidden |
| DashboardServer.CollectedFacts | web_dashboard/mcp_web_server.py:672-749 | an entry is collected exactly when some process passes the first-pass test, is still readable in the second pass, gives that entry and is not hidden as idle |
| DashboardServer.SortedMembersOf | web_dashboard/mcp_web_server.py:752-762 | every sort key, either way round, keeps the same entries, as many as before |
| DashboardServer.ServicesFailureIff | web_dashboard/mcp_web_server.py:655-789 | the listing fails exactly when the limit parameter is not a whole number |
| DashboardServer.ServicesReplyFacts | web_dashboard/mcp_web_server.py:765-781 | a positive limit shows the first `limit` of the sorted entries and any other limit all of them; `total_available` counts them before the cut and `total_count` after it |
| DashboardServer.ShownFromTable | web_dashboard/mcp_web_server.py:693-770 | every entry shown is one that some process gives |
| DashboardServer.ServicesDefaults | web_dashboard/mcp_web_server.py:655-658 | with no parameters: sorted by CPU, busiest first, at most 50 entries, idle processes kept |
| DashboardServer.FlagFacts | web_dashboard/mcp_web_server.py:656-658 | a flag is on only when its parameter reads `true` in any case; a missing flag takes its default |
| DashboardOptimized.RouteOfFacts | web_dashboard/mcp_web_server_optimized.py:21-50 | every path the basic server answers goes to the same handler; the paginated listing has its own path; any other path under `/static/` goes to the static handler with the path unchanged, and everything else gets 404 |
| DashboardOptimized.CharBytes | web_dashboard/mcp_web_server_optimized.py:56-58 | a character encodes to one to four bytes, and to one byte exactly when it is ASCII |
| DashboardOptimized.CharBytesDecode | web_dashboard/mcp_web_server_optimized.py:56-58 | the lead byte announces the encoding's length, the other bytes are continuation bytes, and the bytes decode back to the character |
| DashboardOptimized.Utf8 | web_dashboard/mcp_web_server_optimized.py:56-58 | text encodes to at least one and at most four bytes per character |
| DashboardOptimized.Utf8Ascii | web_dashboard/mcp_web_server_optimized.py:56-58 | ASCII text encodes to one byte per character, its code |
| DashboardOptimized.CompressFacts | web_dashboard/mcp_web_server_optimized.py:52-59 | a reply is compressed exactly when gzip is accepted and the data is longer than 1024 (characters for text, bytes for bytes); the compressed body is the gzip of the encoded data, any other body the encoded data itself |
| DashboardOptimized.SendEncoding | web_dashboard/mcp_web_server_optimized.py:61-86 | a reply has status 200 and a Content-Encoding header exactly when it was compressed; an uncompressed body is the data's own bytes |
| DashboardOptimized.SendLength | web_dashboard/mcp_web_server_optimized.py:71-84 | the last header is Content-Length and reads back as the number of bytes sent |
| DashboardOptimized.TotalPages | web_dashboard/mcp_web_server_optimized.py:714 | there is always at least one page |
| DashboardOptimized.DashboardStart | web_dashboard/mcp_web_server_optimized.py:715 | a page from 1 on of a non-negative size starts at a non-negative index |
| DashboardOptimized.PagedErrorIff | web_dashboard/mcp_web_server_optimized.py:681-730 | the error reply is sent exactly when the process listing raised, the page or the page size is not a whole number, or the page size is 0 (the division raises) |
| DashboardOptimized.VisibleFacts | web_dashboard/mcp_web_server_optimized.py:697-699 | without hiding the listing is unchanged; with it exactly the processes with some CPU or more than 0.1 % of memory remain |
| DashboardOptimized.SortedRecordsFacts | web_dashboard/mcp_web_server_optimized.py:702-710 | sorting keeps the same processes, as many as before, ordered by the key asked for in the direction asked for; an unknown key leaves the order unchanged |
| DashboardOptimized.TotalPagesFacts | web_dashboard/mcp_web_server_optimized.py:713-714 | for a positive page size the page count is the ceiling of the count over the size but at least 1: enough pages for every process, and no empty page after the first |
| DashboardOptimized.PageWindow | web_dashboard/mcp_web_server_optimized.py:713-724 | for a page from 1 on and a positive size the page is entries (page-1)*size up to page*size of the sorted listing, cut at its end, empty past it; the total counts the whole listing and the page number and size are echoed |
| DashboardOptimized.PageDefaults | web_dashboard/mcp_web_server_optimized.py:687-691 | with no parameters: sorted by CPU, busiest first, idle processes kept, page 1 of 50 |
| DashboardOptimized.StaticPathEscapes | web_dashboard/mcp_web_server_optimized.py:789-790 | as written: `/static//etc/passwd` opens `/etc/passwd`, outside the static directory |
| DashboardOptimized.StaticPathInside | web_dashboard/mcp_web_server_optimized.py:786-795 | corrected: a path is refused exactly when what follows the prefix is absolute or has a `..` segment; an accepted path is the static directory's segments followed by the request's, none of them `..` |
| DashboardOptimized.SplitAround | web_dashboard/mcp_web_server_optimized.py:790 | splitting a joined path splits each side |
| DashboardOptimized.DotlessPieces | web_dashboard/mcp_web_server_optimized.py:790 | text without a dot has no `..` segment |
| DashboardOptimized.StaticDirSegments | web_dashboard/mcp_web_server_optimized.py:790 | the static directory has no `..` segment |
| DashboardOptimized.ServeStaticFacts | web_dashboard/mcp_web_server_optimized.py:786-827 | 404 exactly for a refused path or a missing file; a served file has status 200 and Content-Length last; it is the stored `.gz` twin, marked gzip, when gzip is accepted and there is one, and otherwise the file, compressed exactly when gzip is accepted and it is longer than 1024 bytes |
| HttpQuery.Param | web_dashboard/mcp_web_server.py:655-658 | the first value given for a key, or the default when the key is absent |
| HttpQuery.NatText | web_dashboard/mcp_web_server_optimized.py:71 | `str(n)` of a natural number is a non-empty string of digits |
| HttpQuery.NatTextValue | web_dashboard/mcp_web_server_optimized.py:71 | the digits written read back as the number |
| HttpQuery.ParseInt | web_dashboard/mcp_web_server.py:657 | `int(text)` gives a number only for text that is not blank once stripped |
| HttpQuery.ParseIntText | web_dashboard/mcp_web_server.py:657 | reading back what `str` writes gives the number: the round trip of `int(str(n))` |
| HttpQuery.DefaultLimitText | web_dashboard/mcp_web_server.py:657 | the default limit and page size `'50'` read as 50 |
| HttpQuery.DefaultPageText | web_dashboard/mcp_web_server_optimized.py:690 | the default page `'1'` reads as 1 |
| HttpQuery.ParseIntRejectsBlank | web_dashboard/mcp_web_server.py:657 | blank text is refused |
| HttpQuery.ParseIntRejectsNonDigit | web_dashboard/mcp_web_server.py:657 | text whose stripped form has a character other than a digit or underscore after its first character is refused |
| HttpQuery.ParseIntRejectsStrayUnderscore | web_dashboard/mcp_web_server.py:657 | an underscore that is leading, trailing, doubled or next to the sign makes `int` refuse the text |
| HttpQuery.ParseIntGrouped | web_dashboard/mcp_web_server.py:657 | `int("1_000")` is 1000: single underscores between digits are accepted and ignored |
| HttpQuery.GroupedValue | web_dashboard/mcp_web_server.py:657 | `1_000` is a well-formed grouped literal body whose value is 1000 |
| HttpQuery.DropUnderscores | web_dashboard/mcp_web_server.py:657 | the result has no underscore, is all digits when the text has only digits and underscores, and is the text itself when it is all digits |
| HttpQuery.GroupsAreDigitsOrUnderscores | web_dashboard/mcp_web_server.py:657 | a literal `int` accepts consists of digits and underscores only |
| HttpQuery.ParseNatText | web_dashboard/mcp_web_server.py:657 | the digits of a natural number read back as that number |
| HttpQuery.ParseNegativeText | web_dashboard/mcp_web_server.py:657 | a minus sign before the digits of a positive number reads back as its negation |
| HttpQuery.NegativeDigitsParse | web_dashboard/mcp_web_server.py:657 | a minus sign before a non-empty run of decimal digits reads back as the negation of their value |
| HttpQuery.ParseNegativeLiteral | web_dashboard/mcp_web_server.py:657 | a minus sign followed by a non-empty run of decimal digits is a literal whose value is the negated digits' value |
| HttpQuery.NatTextUnspaced | web_dashboard/mcp_web_server.py:657 | stripping leaves decimal digits, with or without a leading minus, unchanged |
| HttpQuery.DigitsAreGroups | web_dashboard/mcp_web_server.py:657 | a non-empty run of plain decimal digits is a well-formed literal body and its value ignoring underscores is its plain decimal value |
| StockModels.MarketFrom | app/api/models/stocks.py:11-18 | `MarketType(v)` succeeds only on one of the six values, and gives the market with that value |
| StockModels.MarketRoundTrip | app/api/models/stocks.py:11-18 | every market reads back from its own value, so the values tell the markets apart |
| StockModels.CategoryFrom | app/api/models/stocks.py:21-33 | `StockCategory(v)` succeeds only on one of the eleven values, and gives the category with that value |
| StockModels.CategoryRoundTrip | app/api/models/stocks.py:21-33 | every category reads back from its own value |
| StockModels.AllCategoriesListed | app/api/models/stocks.py:21-33 | the category list names every category, each exactly once |
| StockModels.TransactionFrom | app/api/models/stocks.py:36-42 | `TransactionType(v)` succeeds only on one of the five values, and gives the type with that value |
| StockModels.TransactionRoundTrip | app/api/models/stocks.py:36-42 | every transaction type reads back from its own value |
| StockModels.AnalysisFrom | app/api/models/stocks.py:45-50 | `AnalysisType(v)` succeeds only on one of the four values, and gives the type with that value |
| StockModels.AnalysisRoundTrip | app/api/models/stocks.py:45-50 | every analysis type reads back from its own value |
| StockModels.TrendFrom | app/api/models/stocks.py:53-58 | `TrendDirection(v)` succeeds only on one of the four values, and gives the direction with that value |
| StockModels.TrendRoundTrip | app/api/models/stocks.py:53-58 | every trend direction reads back from its own value |
| StockModels.RiskFrom | app/api/models/stocks.py:61-66 | `RiskLevel(v)` succeeds only on one of the four values, and gives the level with that value |
| StockModels.RiskRoundTrip | app/api/models/stocks.py:61-66 | every risk level reads back from its own value |
| StockModels.UpperIdempotent | app/api/models/stocks.py:91 | upper-casing twice is upper-casing once |
| StockModels.StripIsSlice | app/api/models/stocks.py:91 | stripping keeps one contiguous part of the text |
| StockModels.StripIdempotent | app/api/models/stocks.py:91 | stripping twice is stripping once |
| StockModels.UpperSlice | app/api/models/stocks.py:91 | a part of upper-case text is upper-case |
| StockModels.ValidateSymbolIdempotent | app/api/models/stocks.py:89-91 | a stored symbol is upper-case, and normalising it again changes nothing |
| StockModels.NormalSymbol | app/api/models/stocks.py:89-91 | text with no lower-case letter and no space at either end is already in stored form |
| StockModels.NewStock | app/api/models/stocks.py:71-91 | a new record has the id given, the request's fields with the symbol normalised, tracking on, the market capitalisation given, no share count, and both times set to now |
| StockModels.NewStockDefaults | app/api/models/stocks.py:78-87 | a request that gives only the required fields gives a tracked stock with no tags and no optional text |
| StockModels.ApplyUpdateFacts | app/api/routes/stocks.py:273-279 | an update never touches the id, the symbol, the market or the creation time; a field is replaced exactly when the request sets it; an update that sets nothing only moves the update time |
| StockModels.NetAmountFacts | app/api/models/stocks.py:211-219 | a computed net amount plus the fees and the tax is the total; a given net amount is kept whatever the other amounts; with no fees and no tax the net amount is the total |
| StockModels.NewTransaction | app/api/models/stocks.py:194-219 | fees and tax are 0 unless given; a given net amount is kept, and otherwise net amount plus fees plus tax is the total |
| StockRoutes.Values | app/api/routes/stocks.py:136 | the values of the store listed in insertion order, one per id |
| StockRoutes.ValuesMembers | app/api/routes/stocks.py:136 | the listing holds exactly the stored records |
| StockRoutes.TakenInIff | app/api/routes/stocks.py:231-232 | the scan over the records finds a symbol exactly when some listed record has it |
| StockRoutes.SymbolTakenIff | app/api/routes/stocks.py:231-232 | in a consistent store a symbol is taken exactly when some stored record has it |
| StockRoutes.StoredValid | app/api/routes/stocks.py:247 | storing a record under its id keeps the store consistent: ids listed once, each stored, each record under its own id |
| StockRoutes.PaddedSymbolAccepted | app/api/routes/stocks.py:231-247 | as written: a store holding a symbol accepts the same symbol with a space in front, and stores it normalised, so the symbol is stored twice |
| StockRoutes.DuplicateSymbolAsWritten | app/api/routes/stocks.py:231-247 | as written: a store holding `2330` accepts ` 2330` and then holds two records with the symbol `2330`, which the corrected create refuses with 400 |
| StockRoutes.CreatedFacts | app/api/routes/stocks.py:224-258 | corrected: the create fails with 400 and changes nothing exactly when a stored record already has the symbol as it will be stored; otherwise it adds exactly the new record under the id given and keeps the store consistent |
| StockRoutes.CreatedKeepsUnique | app/api/routes/stocks.py:224-258 | the corrected create keeps stored symbols unique |
| StockRoutes.UpdatedFacts | app/api/routes/stocks.py:261-289 | an unknown id is 404 and changes nothing; otherwise only that record changes, by the update, so the store stays consistent and symbols stay unique |
| StockRoutes.Without | app/api/routes/stocks.py:300 | removing an id from the order keeps exactly the other ids |
| StockRoutes.WithoutDistinct | app/api/routes/stocks.py:300 | removing an id from a list of distinct ids keeps them distinct |
| StockRoutes.DeletedFacts | app/api/routes/stocks.py:292-310 | an unknown id is 404 and changes nothing; otherwise exactly that id is removed, its name is reported, every other record stays as it was, and the store stays consistent |
| StockRoutes.ToggledFacts | app/api/routes/stocks.py:313-335 | an unknown id is 404 and changes nothing; otherwise only that record's tracking flag flips and its update time moves, the new flag is reported, and toggling twice restores the flag |
| StockRoutes.ImportItems | app/api/routes/stocks.py:419-427 | one item per default stock, in order, looked up under its own symbol, whose record would take the matching id |
| StockRoutes.DefaultStoredForms | app/api/routes/stocks.py:386-417 | the three default symbols are already in stored form |
| StockRoutes.ItemsFacts | app/api/routes/stocks.py:419-427 | symbols in stored form with fresh distinct ids give items whose records carry the symbol they are looked up under, under ids that are fresh |
| StockRoutes.ImportedValid | app/api/routes/stocks.py:419-427 | the import keeps the store consistent and counts at most one stock per default |
| StockRoutes.ImportedAvoids | app/api/routes/stocks.py:419-427 | the import stores nothing under an id that was neither stored nor drawn for an item |
| StockRoutes.ImportedIdFresh | app/api/routes/stocks.py:423-425 | each item's id is still free when its turn comes |
| StockRoutes.StoredTakes | app/api/routes/stocks.py:425 | adding a record under a fresh id keeps every taken symbol taken and takes the record's own symbol, and no other |
| StockRoutes.ImportOneTakes | app/api/routes/stocks.py:421-427 | one step of the import keeps every taken symbol taken and takes the item's own symbol |
| StockRoutes.ImportedLaterKeeps | app/api/routes/stocks.py:419-427 | later steps of the import keep what earlier steps took |
| StockRoutes.ImportedTakesItems | app/api/routes/stocks.py:419-427 | after the import every default symbol is stored |
| StockRoutes.ImportIdempotent | app/api/routes/stocks.py:380-440 | a second import adds nothing, counts 0 and leaves the store as it was, whatever ids it draws |
| StockRoutes.AllTakenImportsNothing | app/api/routes/stocks.py:419-427 | with every default symbol already stored the import changes nothing and counts 0 |
| StockRoutes.ListStart | app/api/routes/stocks.py:167 | a page from 1 on of a non-negative size starts at a non-negative index |
| StockRoutes.StocksListRejects | app/api/routes/stocks.py:124-126 | the listing answers 422 exactly when the page is below 1 or the page size is outside 1 to 200 |
| StockRoutes.SortedStocksFacts | app/api/routes/stocks.py:155-163 | sorting is a permutation of the records, ordered by the field asked for in the direction asked for; any other field keeps the order |
| StockRoutes.StocksListMembers | app/api/routes/stocks.py:136-163 | a record is listed exactly when it is stored and meets every filter (search as a case-insensitive substring of symbol or name, market, category, tracking); a record on a page is one of those |
| StockRoutes.PageMembers | app/api/routes/stocks.py:169 | a page holds only listed records |
| StockRoutes.PageSlice | app/api/routes/stocks.py:166-169 | a page is entries (page-1)*size up to page*size of the listing, cut at its end, empty past it, so at most `size` entries |
| StockRoutes.PageCount | app/api/routes/stocks.py:180 | the page count is the ceiling of the total over the size: no pages for an empty listing, and every page before the last is full |
| StockRoutes.PageOfFacts | app/api/routes/stocks.py:166-191 | the answer holds the requested page and its length; there are ceil(total/size) pages, none for an empty listing; `has_next` exactly before the last page and `has_prev` exactly after the first |
| StockRoutes.PagesOfNothing | app/api/routes/stocks.py:180 | the page count is 0 exactly for an empty listing |
| StockRoutes.PageBeforeLastIsFull | app/api/routes/stocks.py:167-180 | a page before the last ends within the listing |
| StockRoutes.Entries | app/api/routes/stocks.py:496-512 | each stored record contributes its market, its category and its tracking flag, in listing order |
| StockRoutes.MarketStatsSums | app/api/routes/stocks.py:490-520 | in every market's entry the tracked stocks are at most all of them, and the category counts add up to the market's count |
| StockRoutes.CategoriesOnce | app/api/models/stocks.py:21-33 | the category list names each category once |
| StockRoutes.StockStore.constructor | app/api/routes/stocks.py:30 | the store starts empty |
| StockRoutes.StockStore.HasSymbol | app/api/routes/stocks.py:231-232 | the scan answers yes exactly when some stored record has the symbol |
| StockRoutes.StockStore.CreateStock | app/api/routes/stocks.py:224-258 | the corrected create: the result and the new store are those the create specification gives |
| StockRoutes.StockStore.UpdateStock | app/api/routes/stocks.py:261-289 | the result and the new store are those the update specification gives |
| StockRoutes.StockStore.DeleteStock | app/api/routes/stocks.py:292-310 | the result and the new store are those the delete specification gives |
| StockRoutes.StockStore.ToggleStockActive | app/api/routes/stocks.py:313-335 | the result and the new store are those the toggle specification gives |
| StockRoutes.StockStore.ImportStocksData | app/api/routes/stocks.py:380-440 | the new store and the count are those the import specification gives for the three default stocks |
| StockRoutes.StockStore.ImportAll | app/api/routes/stocks.py:419-427 | the import loop adds each item's record under its id unless its symbol is already stored, and counts the ones added |
| StockRoutes.StockStore.GetMarketStatistics | app/api/routes/stocks.py:490-520 | the statistics are the tally of the stored records by market, and `total_markets` is the number of markets in it |
| MarketStats.TallyStep | app/api/routes/stocks.py:496-512 | one more round of the loop counts one more stock into the statistics |
| MarketStats.CountedInFacts | app/api/routes/stocks.py:497-512 | counting a stock touches only its market's entry, creating it if missing, and adds one to its count, to its tracked count when tracked, and to its category's count |
| MarketStats.TallyMarkets | app/api/routes/stocks.py:496-503 | a market has an entry exactly when some stock is in it |
| MarketStats.ZeroInMarket | app/api/routes/stocks.py:496-512 | a market with no stocks has none tracked and none in any category |
| MarketStats.TallyCounts | app/api/routes/stocks.py:496-512 | a market's entry counts exactly that market's stocks, its tracked stocks, and the stocks of each category |
| MarketStats.ActiveAtMost | app/api/routes/stocks.py:505-507 | a market has no more tracked stocks than stocks |
| MarketStats.CategorySumBump | app/api/routes/stocks.py:510-512 | one more stock in a category adds one to the sum of the category counts |
| MarketStats.EmptyCategorySum | app/api/routes/stocks.py:502 | a new entry's categories add up to 0 |
| MarketStats.TallySums | app/api/routes/stocks.py:496-512 | in every market's entry tracked stocks are at most all of them and, summed over every category once, the category counts are the market's count |
| MarketStats.CountStock | app/api/routes/stocks.py:497-512 | the loop body's field-by-field bumps give the same entry as counting the stock in |
| Diagnostic.IssueCountAppend | scripts/vscode_memory_diagnostic.py:187-232 | counting an issue over two runs of items is counting over each |
| Diagnostic.IssueTextStart | scripts/vscode_memory_diagnostic.py:235 | no issue text the rules produce starts with the character that `已配置` starts with |
| Diagnostic.NothingConfigured | scripts/vscode_memory_diagnostic.py:235 | no generated item says that a setting is already in place |
| Diagnostic.TuningItemsLast | scripts/vscode_memory_diagnostic.py:235-252 | the three fixed items are always appended, so they are always the last three recommendations |
| Diagnostic.CountByPart | scripts/vscode_memory_diagnostic.py:187-254 | how often an issue is recommended is the sum of how often each rule and the fixed items give it |
| Diagnostic.CountOfOne | scripts/vscode_memory_diagnostic.py:191-222 | a rule that gives at most one item gives its issue at most once |
| Diagnostic.TuningCount | scripts/vscode_memory_diagnostic.py:236-252 | the fixed items are about tuning and monitoring only |
| Diagnostic.MemoryRule | scripts/vscode_memory_diagnostic.py:190-205 | memory above 80 % gives exactly one critical item, and above 60 % up to 80 % exactly one warning, never both; a missing reading counts as 0; no other item is critical |
| Diagnostic.SummaryRule | scripts/vscode_memory_diagnostic.py:207-222 | more than 2048 MB over all VS Code processes gives exactly one warning, and more than 20 processes exactly one info item; missing readings count as 0 |
| Diagnostic.PartCounts | scripts/vscode_memory_diagnostic.py:190-222 | each threshold rule's issue is given only by its own rule, once when its threshold is passed |
| Diagnostic.NoOtherIssues | scripts/vscode_memory_diagnostic.py:225-232 | the per-process check gives only per-process warnings |
| Diagnostic.CriticalOnlyMemoryAppend | scripts/vscode_memory_diagnostic.py:187-252 | two runs of items where only memory items are critical make such a run together |
| Diagnostic.OnlyMemoryCritical | scripts/vscode_memory_diagnostic.py:187-252 | the only critical recommendation there can be is the high-memory one |
| Diagnostic.ProcessItemsStep | scripts/vscode_memory_diagnostic.py:225-232 | one more round of the process loop appends that process's warning, if it has one |
| Diagnostic.ProcessItemsWarn | scripts/vscode_memory_diagnostic.py:226-232 | every per-process item is a warning about a process |
| Diagnostic.ProcessItemsExact | scripts/vscode_memory_diagnostic.py:225-232 | a per-process warning is given for exactly the processes over 1024 MB, quoting that process |
| Diagnostic.ProcessRule | scripts/vscode_memory_diagnostic.py:225-232 | the per-process warnings among the recommendations are exactly those of the first five processes that use over 1024 MB |
| Diagnostic.ProcessItemsCount | scripts/vscode_memory_diagnostic.py:225-232 | one warning per process over 1024 MB, so no more warnings than processes |
| Diagnostic.ProcessWarningsBound | scripts/vscode_memory_diagnostic.py:225 | at most five per-process warnings, one for each examined process over 1024 MB |
| Diagnostic.AppendProcessWarnings | scripts/vscode_memory_diagnostic.py:225-232 | the loop appends, in order, a warning for each examined process over 1024 MB |
| Diagnostic.MemoryDiagnostic.constructor | scripts/vscode_memory_diagnostic.py:185-187 | a diagnostic holds its report and no recommendations yet |
| Diagnostic.MemoryDiagnostic.GenerateRecommendations | scripts/vscode_memory_diagnostic.py:185-254 | the report is left as it was, and its recommendations become the rules' items in order, followed by the three fixed items |
| Common.SliceBound | app/core/monitors/base.py:274 | a slice bound is clamped into the list: a non-negative bound up to its length, a negative one counted from the end and cut at 0 |
| Common.PySlice | app/core/monitors/base.py:274 | `s[start:stop]` is a run of consecutive elements of `s` starting at the normalised start, never longer than `s` |
| Common.Take | app/core/monitors/base.py:235 | `s[:n]` is the first `n` elements, all of them when there are fewer; a negative `n` drops that many from the end |
| Common.LastN | app/core/scheduler.py:159 | `s[-n:]` is the last `n` elements for a positive `n`, all of them when there are fewer, and the whole list for 0 |
| Common.LastNFacts | app/core/scheduler.py:159 | `s[-n:]` is a suffix of `s`, of `n` elements when `s` has that many, and all of `s` for `n` = 0 |
| Common.LastNShape | mcp_servers/mcp_log_analyzer.py:375 | the last `n` elements are a suffix of at most `n` elements drawn from the list |
| Common.PySliceOfNonNegative | app/api/routes/stocks.py:167-169 | a slice from a non-negative start of a non-negative size is that window of the list, cut at its end, and empty past it |
| Common.FloorDiv | app/api/routes/stocks.py:180 | Python's `//` is the floor of the exact quotient, for either sign of the divisor |
| Common.CeilDiv | app/api/routes/stocks.py:180 | `(total + size - 1) // size` is the ceiling of total over size for a positive size |
| Common.Split | mcp_servers/mcp_log_analyzer.py:322 | `s.split(sep)` gives at least one piece, none of which holds the separator |
| Common.JoinSplit | mcp_servers/mcp_log_analyzer.py:322 | joining the pieces of a split with the separator gives the text back |
| Common.StripEmptyIffBlank | mcp_servers/mcp_log_analyzer.py:333 | `s.strip()` is empty exactly when every character is whitespace in the sense of `str.isspace` |
| Sorting.SortBy | app/core/monitors/base.py:232 | `list.sort(key=..., reverse=...)` gives a permutation of the list, ordered by the key in the direction asked for |
| Sorting.SortedPrefix | app/core/monitors/base.py:232-235 | the first `n` of a sorted list are elements of the input, in order, and all of the input when it has no more than `n` |
| Sorting.SortedMembers | app/core/monitors/base.py:232 | sorting keeps exactly the elements of the input |
| Sorting.SortedCutoff | app/api/routes/alerts.py:55-59 | an element of the input that falls outside a prefix of the sorted list is not ordered before any element inside the prefix |
| Common.FilterLast | mcp_servers/mcp_log_monitor.py:291-293 | the last element a filter keeps is an element that passes, after which no element of the input passes |

## Specification functions

The functions below model operations of the source but carry no contract of their own: each is the specification that the listed lemmas and methods state properties of, so it has no row in the table above.

- AlertEngine.CheckCondition (app/core/alerts/engine.py:242-257): AlertEngine.ConditionSemantics, AlertEngine.UnknownConditionNeverFires, AlertEngine.FireExactlyWhenDue
- AlertEngine.Observe (app/core/alerts/engine.py:193-240): AlertEngine.FirstBreachNeverFires, AlertEngine.FireExactlyWhenDue, AlertEngine.ClearResetsButKeepsNotification, AlertEngine.ObservePreservesConsistency
- AlertEngine.WithIncident (app/core/alerts/engine.py:259-288): AlertEngine.WithIncidentFacts, AlertEngine.Engine.CreateIncident
- AlertEngine.EvaluatedRule (app/core/alerts/engine.py:193-240): AlertEngine.StepShape, AlertEngine.StepOld, AlertEngine.Engine.EvaluateRule
- AlertEngine.Pass (app/core/alerts/engine.py:180-191): AlertEngine.PassFacts, AlertEngine.Engine.EvaluateMetrics
- AlertEngine.AfterAcknowledge (app/core/alerts/engine.py:419-432): AlertEngine.AcknowledgeFacts, AlertEngine.Engine.AcknowledgeIncident
- AlertEngine.AfterResolve (app/core/alerts/engine.py:434-448): AlertEngine.ResolveFacts, AlertEngine.Engine.ResolveIncident
- AlertEngine.AfterSuppress (app/core/alerts/engine.py:450-461): AlertEngine.SuppressFacts, AlertEngine.Engine.SuppressIncident
- AlertEngine.Engine.GetAlertSummary (app/core/alerts/engine.py:359-405): AlertEngine.SummaryCounts, AlertEngine.ResolvedTodayFacts, AlertEngine.AvgResolutionZero, AlertEngine.AvgResolutionBetween, AlertEngine.AvgResolutionNonNegative
- AlertRoutes.Matching (app/api/routes/alerts.py:35-83): AlertRoutes.MatchingMembers, AlertRoutes.GetIncidentsFacts, AlertRoutes.GetIncidentsCutoff
- AlertRoutes.GetIncidents (app/api/routes/alerts.py:35-83): AlertRoutes.GetIncidentsFacts, AlertRoutes.GetIncidentsCutoff
- AlertRoutes.IncidentAction (app/api/routes/alerts.py:113-150): AlertRoutes.IncidentActionFacts, AlertRoutes.IncidentActionRoute
- AlertRoutes.GetAlertRules (app/api/routes/alerts.py:154-179): AlertRoutes.GetAlertRulesFacts
- AlertRoutes.CreateAlertRule (app/api/routes/alerts.py:205-229): AlertRoutes.CreateAlertRuleFacts, AlertRoutes.CreateAlertRuleRoute
- AlertRoutes.UpdateAlertRule (app/api/routes/alerts.py:233-263): AlertRoutes.UpdateAlertRuleFacts, AlertRoutes.UpdateAlertRuleRoute
- AlertRoutes.DeleteAlertRule (app/api/routes/alerts.py:267-285): AlertRoutes.DeleteAlertRuleFacts, AlertRoutes.DeleteAlertRuleRoute
- AlertRoutes.ToggleAlertRule (app/api/routes/alerts.py:289-312): AlertRoutes.ToggleAlertRuleFacts, AlertRoutes.ToggleTwice, AlertRoutes.ToggleAlertRuleRoute
- AlertRoutes.GetAlertMetrics (app/api/routes/alerts.py:316-366): AlertRoutes.AlertMetricsFacts
- AnalyticsRoutes.AggregatedByHour (app/api/routes/analytics.py:293-328): AnalyticsRoutes.AggregatedAt, AnalyticsRoutes.AggregatedHours, AnalyticsRoutes.AggregatedFields, AnalyticsRoutes.AggregateByHour, AnalyticsRoutes.AverageGroups
- AnalyticsRoutes.MetricsOverview (app/api/routes/analytics.py:162-216): AnalyticsRoutes.MetricsOverviewFacts
- AnalyticsRoutes.TrendInsights (app/api/routes/analytics.py:479-496): AnalyticsRoutes.TrendInsightsFacts, AnalyticsRoutes.GenerateTrendInsights
- AnalyticsRoutes.SystemInsights (app/api/routes/analytics.py:257-290): AnalyticsRoutes.SystemInsightsOrder, AnalyticsRoutes.InsightsRoute
- Collector.RowOf (app/core/analytics/collector.py:221-243): Collector.HistoricalRowsPrefix, Collector.HistoricalRowsAt
- Collector.BaselineOf (app/core/analytics/collector.py:389-432): Collector.BaselineFacts, Collector.SetBaselinesStep, Collector.BaselineKeepsValid, Collector.SetBaselinesFacts, Collector.RenewedBaseline
- Collector.UpdatedBaselines (app/core/analytics/collector.py:389-432): Collector.UpdatedBaselinesFacts, Collector.RenewedBaseline, Collector.MetricsCollector.UpdateBaselines
- Collector.ShouldUpdate (app/core/analytics/collector.py:376-387): Collector.CollectedFacts, Collector.MetricsCollector.ShouldUpdateBaselines
- Collector.Collected (app/core/analytics/collector.py:145-204): Collector.CollectedFacts, Collector.MetricsCollector.CollectMetrics
- Collector.MetricsCollector.GetRecentData (app/core/analytics/collector.py:216-219): Collector.RecentDataIsSuffix, Collector.RecentDataMonotone, Collector.UpdatedBaselinesFacts, Collector.RenewedBaseline, Collector.MetricsCollector.CleanupOldData, Collector.MetricsCollector.GetHistoricalData
- DashboardOptimized.RouteOf (web_dashboard/mcp_web_server_optimized.py:21-50): DashboardOptimized.RouteOfFacts
- DashboardOptimized.CompressResponse (web_dashboard/mcp_web_server_optimized.py:52-59): DashboardOptimized.CompressFacts
- DashboardOptimized.Send (web_dashboard/mcp_web_server_optimized.py:61-73): DashboardOptimized.SendEncoding, DashboardOptimized.SendLength
- DashboardOptimized.PaginatedFor (web_dashboard/mcp_web_server_optimized.py:681-730): DashboardOptimized.PagedErrorIff, DashboardOptimized.PageWindow
- DashboardOptimized.PaginatedReply (web_dashboard/mcp_web_server_optimized.py:681-730): DashboardOptimized.PagedErrorIff, DashboardOptimized.PageWindow
- DashboardOptimized.StaticPath (web_dashboard/mcp_web_server_optimized.py:786-827): DashboardOptimized.StaticPathInside, DashboardOptimized.ServeStaticFacts
- DashboardOptimized.ServeStaticFile (web_dashboard/mcp_web_server_optimized.py:786-827): DashboardOptimized.ServeStaticFacts
- DashboardServer.RouteOf (web_dashboard/mcp_web_server.py:18-39): DashboardOptimized.RouteOfFacts, DashboardServer.RouteOfFacts
- DashboardServer.ServicesInfoReply (web_dashboard/mcp_web_server.py:647-791): DashboardServer.ServeServicesInfo, DashboardServer.ServicesFailureIff
- Dependencies.Correlations (app/core/analytics/dependency_analyzer.py:81-99): Dependencies.CorrelationsFromPairs, Dependencies.CorrelationsUnique, Dependencies.CalculateCorrelations
- Dependencies.ResourceDependencies (app/core/analytics/dependency_analyzer.py:40-79): Dependencies.AnalyzeResourceDependencies, Dependencies.ResourceDependenciesFacts
- Diagnostic.Recommendations (scripts/vscode_memory_diagnostic.py:185-254): Diagnostic.TuningItemsLast, Diagnostic.CountByPart, Diagnostic.MemoryRule, Diagnostic.SummaryRule, Diagnostic.PartCounts, Diagnostic.OnlyMemoryCritical
- IOAnalysis.DiskBottlenecks (app/core/analytics/io_analyzer.py:265-327): IOAnalysis.ReportAll, IOAnalysis.BottlenecksFacts, IOAnalysis.IOAnalyzer.AnalyzeIOBottlenecks
- IOAnalysis.NetworkBottlenecks (app/core/analytics/io_analyzer.py:329-388): IOAnalysis.ReportAll, IOAnalysis.BottlenecksFacts, IOAnalysis.IOAnalyzer.AnalyzeIOBottlenecks
- LogAnalyzer.TailAsWritten (mcp_servers/mcp_log_analyzer.py:302-337): LogAnalyzer.TailAsWrittenBounds, LogAnalyzer.TailAtStart, LogAnalyzer.TailTruncatesFirstLine, LogAnalyzer.OneLineTail, LogAnalyzer.ReadTailLinesAsWritten
- LogAnalyzer.LastLines (mcp_servers/mcp_log_analyzer.py:302-337): LogAnalyzer.TailAtStart, LogAnalyzer.StoppedEarly, LogAnalyzer.TailTruncatesFirstLine, LogAnalyzer.OneLineLast, LogAnalyzer.ReadTailLines
- LogAnalyzer.WordSearch (mcp_servers/mcp_log_analyzer.py:348-359): LogAnalyzer.WordSearchFinds, LogAnalyzer.BracketNeverDecides, LogAnalyzer.FoundUpper, LogAnalyzer.WordFoundUpper
- LogAnalyzer.BracketSearch (mcp_servers/mcp_log_analyzer.py:348-359): LogAnalyzer.BracketSearchFinds, LogAnalyzer.BracketNeverDecides, LogAnalyzer.FoundUpper, LogAnalyzer.BracketFoundUpper
- LogAnalyzer.ExtractLogLevel (mcp_servers/mcp_log_analyzer.py:348-359): LogAnalyzer.ExtractedIsLevel, LogAnalyzer.NoLevel, LogAnalyzer.WarningNotWarn, LogAnalyzer.AnalyzeLogLevels, LogAnalyzer.LogLevelCounts, LogAnalyzer.LevelsAreLevelWords
- LogAnalyzer.ExtractSource (mcp_servers/mcp_log_analyzer.py:402-415): LogAnalyzer.SourceIsTag, LogAnalyzer.SourceUnknown, LogAnalyzer.SourcePidFirst, LogAnalyzer.SourceOfPidPrefix
- LogAnalyzer.ExtractErrorType (mcp_servers/mcp_log_analyzer.py:417-430): LogAnalyzer.TimeoutBeforeConnection, LogAnalyzer.FileStartsWord, LogAnalyzer.DirectoryEndsWord, LogAnalyzer.FileInsideWord
- Monitors.ServiceOf (app/core/monitors/base.py:211-243): Monitors.GetServicesInfo, Monitors.ServicesInfoFacts, Monitors.ServicesInfoCutoff, Monitors.ListedServices
- Monitors.Listed (app/core/monitors/base.py:211-243): Monitors.GetServicesInfo, Monitors.ServicesInfoFacts, Monitors.ServicesInfoCutoff
- Monitors.PaginatedServices (app/core/monitors/base.py:245-289): Monitors.PaginatedFacts, Monitors.PageWindow, Monitors.PageSortedByCpu
- ScheduleModels.ValidatorsAccept (app/api/models/schedule.py:70-73): Scheduler.CreatedFacts
- Scheduler.NextRun (app/core/scheduler.py:161-203): Scheduler.NextRunDefined, Scheduler.NextRunDependsOnTiming, Scheduler.DailyNextRun, Scheduler.WeeklyNextRun, Scheduler.HourlyAndCustomNextRun, Scheduler.CreatedFacts
- Scheduler.ListSchedules (app/core/scheduler.py:148-150): Scheduler.ReportScheduler.SetupScheduler, Scheduler.ReportScheduler.Start
- Scheduler.JobsOf (app/core/scheduler.py:205-227): Scheduler.RegisteredFacts, Scheduler.RegisteredFails, Scheduler.RegisteredJobsBelong, Scheduler.RegisteredJobsPresent, Scheduler.ReportScheduler.SetupScheduler, Scheduler.ReportScheduler.Start
- Scheduler.Registered (app/core/scheduler.py:205-227): Scheduler.RegisteredFacts, Scheduler.RegisteredFails, Scheduler.RegisteredJobsBelong, Scheduler.RegisteredJobsPresent, Scheduler.ReportScheduler.SetupScheduler, Scheduler.ReportScheduler.Start
- Scheduler.Created (app/core/scheduler.py:92-107): Scheduler.OperationsPreserveValidity, Scheduler.CreatedFacts, Scheduler.ReportScheduler.CreateSchedule
- Scheduler.Updated (app/core/scheduler.py:109-128): Scheduler.OperationsPreserveValidity, Scheduler.UpdatedFacts, Scheduler.ReportScheduler.UpdateSchedule
- Scheduler.Deleted (app/core/scheduler.py:130-142): Scheduler.OperationsPreserveValidity, Scheduler.DeletedFacts, Scheduler.ReportScheduler.DeleteSchedule
- Scheduler.ExecutionLogs (app/core/scheduler.py:152-159): Scheduler.ExecutionLogsFacts
- Scheduler.PersistedLogs (app/core/scheduler.py:77-90): Scheduler.PersistedLogsFacts
- Scheduler.Ran (app/core/scheduler.py:229-237): Scheduler.RanFacts, Scheduler.ReportScheduler.RunScheduleTask
- ServiceController.Triggered (mcp_servers/mcp_service_controller.py:117-144): ServiceController.Controller.TriggerAlert
- ServiceController.Cleared (mcp_servers/mcp_service_controller.py:146-153): ServiceController.Controller.ClearAlert
- ServiceController.Checked (mcp_servers/mcp_service_controller.py:92-115): ServiceController.CheckedFacts, ServiceController.CriticalThenWarning, ServiceController.RecheckIsIdempotent, ServiceController.CheckedKeepsSeverity, ServiceController.CheckedFrame, ServiceController.CheckedBelowWarning
- ServiceController.SystemChecked (mcp_servers/mcp_service_controller.py:65-90): ServiceController.SystemCheckedFacts, ServiceController.SystemCheckedFrame, ServiceController.SystemCheckedUsage, ServiceController.SystemCheckedLoad, ServiceController.LoadTextNeverAlerts, ServiceController.DefaultLoadTextNeverAlerts
- StockModels.ValidateSymbol (app/api/models/stocks.py:90-91): StockModels.ValidateSymbolIdempotent, StockModels.NormalSymbol, StockModels.NewStock
- StockModels.NetAmount (app/api/models/stocks.py:212-219): StockModels.NetAmountFacts
- StockRoutes.Created (app/api/routes/stocks.py:225-258): StockRoutes.DuplicateSymbolAsWritten, StockRoutes.CreatedFacts, StockRoutes.CreatedKeepsUnique, StockRoutes.StockStore.CreateStock
- StockRoutes.Imported (app/api/routes/stocks.py:380-440): StockRoutes.ImportIdempotent, StockRoutes.StockStore.ImportStocksData
- StockRoutes.StocksList (app/api/routes/stocks.py:124-198): StockRoutes.StocksListRejects, StockRoutes.StocksListMembers
- StockRoutes.StockStore.ListStocks (app/api/routes/stocks.py:124-198): StockRoutes.StocksListRejects, StockRoutes.StocksListMembers
- Thresholds.UpdateThresholds (app/api/routes/threshold.py:73-137): Thresholds.UpdateThresholdsFacts


## Left out

- File, JSON and SQLite persistence: stores are in-memory maps, saving is the value that would be written, and loading a missing file yields the defaults.
- psutil and platform sampling: CPU, memory, disk, network and process snapshots are parameters of the operations that read them.
- Threads, asyncio tasks, timers and the `schedule` library: registration is the set of ACTIVE schedules, and failures inside the library itself (for example `.at` refusing a one-digit hour) are not modelled.
- Notifications: Discord, e-mail and the history-manager call in `_trigger_alert` have no model; the model keeps only the state changes around them.
- `uuid` and clocks: fresh ids and the current time are parameters, and each id must not already be in use.
- Float and text formatting (`:.1f`, f-strings, `isoformat`): values are kept as numbers or structured records rather than as formatted strings.
- `statistics.stdev`, `numpy.corrcoef` and `numpy.polyfit`: these are function parameters, because Dafny has no floating point.
- `round`: not modelled; every figure the model computes is the exact, unrounded value, and figures that the source rounds while sampling (disk usage, process memory) enter as parameters.
- HistoryHealth.HealthScoreOf: the five scores are the unrounded ones; mcp_servers/mcp_history_manager.py:244-248 rounds each to two decimals, so the source's figures can differ from the model's by up to 0.005.
- gzip and `mimetypes`: the compressor is an opaque function parameter and the content type is a parameter.
- Sorting.SortBy: proved sorted and a permutation of its input; the stability of Python's `sort` on equal keys is not proved.
- Dictionary iteration order: it is modelled as ascending id, which equals insertion order because ids are handed out in increasing order.
- Scheduler.ReportScheduler.SetupScheduler and ScheduleRoutes.OverviewNextExecutions: `next_run` values are compared as numbers, while the source sorts ISO-8601 strings. The two agree for timestamps of the same format.
- AlertModels.ApplyRuleUpdate and StockModels.ApplyUpdateFacts: the pydantic validators are not rerun after `setattr`, and an explicit `null` in an update is not distinguished from an absent field.
- AlertRoutes.DeleteAlertRuleFacts: deleting a rule leaves its incidents and its rule state in place, as the source does.
- StockRoutes.StockStore.ImportStocksData: the records of the default stock list are built ahead of time; `ids[k]` is the id that the k-th default stock would receive.
- StockRoutes.StockStore.GetMarketStatistics: statistics are keyed by the enumerations themselves rather than by their string values.
- `get_alert_thresholds` and `load_alert_thresholds` of the service controller: the first returns a copy, which is the same value in this model; the second merges a file from disk.
- The analytics `/trends` and `/baselines` routes: they only reformat what the collector returns.
- `parse_log_timestamp` of the log analyzer: it depends on `datetime.strptime` with several formats and feeds nothing modelled here.
- The log monitor's file-tailing threads and `search_logs`: they are file I/O, and `search_logs` uses free-form regular expressions.
- `get_stocks_overview`: it calls dictionary `.get` on the stored model objects, which have no such method, so it fails whenever the store holds a stock.
- Regular expressions: each fixed pattern the model needs is written as a word, keyword or tag predicate. `\s` and `strip()` use Python's full `str.isspace` set; `\w`, `\b`, `\d`, `re.IGNORECASE` and `.upper()`/`.lower()` are modelled over ASCII only, so the members below are stated for ASCII text.
- LogMonitor.DetectLevel: its keyword matches agree with Python's `re` only where the characters next to and inside a match are ASCII, because `\w`, `\b` and `\d` are modelled over ASCII while Python's text patterns also match other letters and digits (`é`, `٣`).
- LogMonitor.ExtractTimestamp: the timestamp patterns agree with Python's `re` only where the characters next to and inside a match are ASCII, because `\w`, `\b` and `\d` are modelled over ASCII while Python's text patterns also match other letters and digits (`é`, `٣`).
- LogMonitor.SpacedClockEnd: agree with Python's `re` only where the characters next to and inside a match are ASCII, because `\w`, `\b` and `\d` are modelled over ASCII while Python's text patterns also match other letters and digits (`é`, `٣`).
- LogMonitor.MatchEnd: agree with Python's `re` only where the characters next to and inside a match are ASCII, because `\w`, `\b` and `\d` are modelled over ASCII while Python's text patterns also match other letters and digits (`é`, `٣`).
- LogMonitor.SyslogEnd: the month word agree with Python's `re` only where the characters next to and inside a match are ASCII, because `\w`, `\b` and `\d` are modelled over ASCII while Python's text patterns also match other letters and digits (`é`, `٣`).
- LogMonitor.DashedEnd: agree with Python's `re` only where the characters next to and inside a match are ASCII, because `\w`, `\b` and `\d` are modelled over ASCII while Python's text patterns also match other letters and digits (`é`, `٣`).
- LogMonitor.SlashedEnd: agree with Python's `re` only where the characters next to and inside a match are ASCII, because `\w`, `\b` and `\d` are modelled over ASCII while Python's text patterns also match other letters and digits (`é`, `٣`).
- LogAnalyzer.WordSearchFinds: the level words agree with Python's `re` only where the characters next to and inside a match are ASCII, because `\w`, `\b` and `\d` are modelled over ASCII while Python's text patterns also match other letters and digits (`é`, `٣`), and case is folded over ASCII letters only.
- LogAnalyzer.NoLevel: agree with Python's `re` only where the characters next to and inside a match are ASCII, because `\w`, `\b` and `\d` are modelled over ASCII while Python's text patterns also match other letters and digits (`é`, `٣`).
- LogAnalyzer.DetectErrorsWarnings: the keyword matches agree with Python's `re` only where the characters next to and inside a match are ASCII, because `\w`, `\b` and `\d` are modelled over ASCII while Python's text patterns also match other letters and digits (`é`, `٣`).
- LogAnalyzer.PidTagAt: agree with Python's `re` only where the characters next to and inside a match are ASCII, because `\w`, `\b` and `\d` are modelled over ASCII while Python's text patterns also match other letters and digits (`é`, `٣`).
- LogAnalyzer.ColonTagAt: agree with Python's `re` only where the characters next to and inside a match are ASCII, because `\w`, `\b` and `\d` are modelled over ASCII while Python's text patterns also match other letters and digits (`é`, `٣`).
- LogAnalyzer.BracketTagAt: agree with Python's `re` only where the characters next to and inside a match are ASCII, because `\w`, `\b` and `\d` are modelled over ASCII while Python's text patterns also match other letters and digits (`é`, `٣`).
- LogAnalyzer.SourceIsTag: agree with Python's `re` only where the characters next to and inside a match are ASCII, because `\w`, `\b` and `\d` are modelled over ASCII while Python's text patterns also match other letters and digits (`é`, `٣`).
- LogAnalyzer.SourceOfPidPrefix: agree with Python's `re` only where the characters next to and inside a match are ASCII, because `\w`, `\b` and `\d` are modelled over ASCII while Python's text patterns also match other letters and digits (`é`, `٣`).
- Common.Upper: only ASCII letters are mapped, while `str.upper` maps every cased letter and can lengthen the text (`'ß'.upper()` is `"SS"`).
- Common.Lower: only ASCII letters are mapped, while `str.lower` maps every cased letter.
- StockModels.ValidateSymbolIdempotent: the upper-casing and the duplicate check built on it agree with Python only on ASCII text, because case is mapped over ASCII letters only.
- Monitors.FilteredMembers: the case-insensitive name search and status match agree with Python only on ASCII text, because case is mapped over ASCII letters only.
- HttpQuery.ParseInt: only ASCII digits are accepted, while `int` also accepts other Unicode decimal digits (`int('٣')` is 3).
- HttpQuery.ParseIntRejectsNonDigit: a non-ASCII decimal digit counts as a non-digit here, while `int` accepts it.
- DashboardServer.ServicesFailureIff: a limit written with non-ASCII decimal digits counts as not a whole number here, so the model answers the error reply where the source lists the services, because `HttpQuery.ParseInt` reads ASCII digits only.
- DashboardOptimized.PagedErrorIff: a page or page size written with non-ASCII decimal digits counts as not a whole number here, so the model answers the error reply where the source serves the page, because `HttpQuery.ParseInt` reads ASCII digits only.
- DashboardOptimized.ServeStaticFacts: the 500 answer's message is "Internal server error" without the appended exception text.
- DashboardOptimized.Utf8: only the UTF-8 encoding of served text is modelled, not decoding or other encodings.
- HTML and JavaScript page text and thin routes that only forward to a modelled operation.
- Diagnostic.MemoryDiagnostic.GenerateRecommendations: the "current" values are kept as numbers rather than as the formatted strings.
- LogAnalyzer.ReadTailLinesAsWritten: the file is an in-memory character sequence, so byte offsets are character offsets and decoding errors are not modelled.

## Findings

| source | as written | input that shows it | evidently intended | confidence | as-written member | corrected member |
|---|---|---|---|---|---|---|
| app/api/routes/analytics.py:222-253 | the 400 raised for too little data is caught by the route's own `except Exception` and re-raised as a 500 | no collected data, so fewer than 24 rows | a 400 with the insufficient-data message | not executed | AnalyticsRoutes.InsufficientDataIs500 | AnalyticsRoutes.CapacityForecastIntended |
| app/core/analytics/io_analyzer.py:204-237 | the network rate is divided by the time since the disk measurement of the same cycle, because the network step never updates `last_measurement_time` | 1 MiB received in the minute between two cycles whose disk and network calls are 1 ms apart | the rate over the time since the previous network snapshot | not executed | IOAnalysis.NetworkRateAsWritten | IOAnalysis.NetworkRateIntended |
| mcp_servers/mcp_log_analyzer.py:302-337 | the loop stops once the first chunk yields enough lines, so the first of them may be cut at the chunk boundary | a file holding one line of 8193 bytes, read with `num_lines` 1 | the last `num_lines` non-blank lines, each one whole | not executed | LogAnalyzer.TailTruncatesFirstLine | LogAnalyzer.ReadTailLines |
| web_dashboard/mcp_web_server_optimized.py:786-795 | the path after `/static/` is joined to the static directory unchecked, and `os.path.join` discards the directory when the rest is absolute | the request path `/static//etc/passwd` | only files inside the static directory are served | not executed | DashboardOptimized.StaticPathEscapes | DashboardOptimized.StaticPathInside |
| app/api/routes/stocks.py:231-247 | the duplicate check compares stored symbols with the upper-cased request symbol without stripping it, although the stored symbol is stripped | a store holding `2330` and a create request with symbol ` 2330` | the duplicate check compares the symbol as it will be stored | not executed | StockRoutes.DuplicateSymbolAsWritten | StockRoutes.CreatedFacts |
| mcp_servers/mcp_service_controller.py:83-87 | the load check takes the first figure only when `load_avg` is a list, but the system summary it reads reports `load_avg` as text, so the load is always checked as 0 | load averages 5.0, 4.0 and 3.0, reported as `"5.00, 4.00, 3.00"` under the default thresholds 2 and 4 | the one-minute load, 5.0, raises a critical load alert | not executed | ServiceController.LoadTextNeverAlerts | ServiceController.LoadListAlerts |
| mcp_servers/mcp_log_monitor.py:316 | `most_recent_error` is `error_logs[0]`, but the buffer is appended to at its end, so this is the oldest error of the window | two errors of the window, processed one after the other | the newest error of the window, `error_logs[-1]` | not executed | LogMonitor.ReportedErrorIsOldest | LogMonitor.NewestErrorIsLast |
