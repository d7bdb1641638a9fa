# Request metrics and data-validation helpers of MicroService-A, in Dafny

This project models the deterministic core of the MicroService-A Flask
services and proves properties of that model.

It covers these parts:

- **The request-metrics store** (`MetricsService`). It keeps a table of
  per-key records. The key is `"METHOD:endpoint"`, and a record is created
  on first use. Each record holds a request counter, an error counter, a
  running duration sum, a last-access stamp and a window of the last 100
  durations. The store offers:
  - a per-key view (average, p95 from the window, error rate);
  - a health summary with a threshold verdict;
  - a Prometheus text rendering.

  It also models the `track_metrics` decorator, the wrapper that records
  one request per call of a Flask view.
- **The second tracker inside `AnalyticsService`.** It keeps the same
  records, but its per-key view has no p95 and its health status is
  always "healthy".
- **The deterministic arithmetic of `DataValidator`.** This covers the
  quality score, the pass/warning/fail banding, the recommendation lists,
  the schema and business-rule summaries and the anomaly summary. Every
  `np.random` draw is an input to the model.
- **Three small helpers:**
  - `validate_request_data`, which checks for required fields;
  - the key rule of `create_api_response` and `BaseService.create_response`;
  - `simple_label`, which classifies a file by its extension.

## How the model is built

**Records and their histories.** The two trackers (`MetricsService.MetricsStore`
and `AnalyticsService.AnalyticsService`) are classes. Each has:

- a `metrics` field, a dictionary in key insertion order (`Dicts.Dict`: a key
  sequence plus a map);
- a constant `startTime`;
- a ghost map `samples` holding each key's request history.

The class invariant (`RequestRecord.Consistent`) states that each record is
exactly what replaying its history produces (`RequestRecord.Replay`). This is
how "errors ≤ count" and "at most 100 durations" are shown to hold after any
sequence of calls.

**Time and numbers.**

- Durations and clock readings are natural numbers of microseconds.
- Rates and averages are exact reals.
- Python's printing of a float is a function parameter (`formatFloat`).

**Results and drivers.**

- Python exceptions that end a call become `Wrappers.Result` failures.
- The loops of the source's read operations are methods with loop
  invariants. Each one is proved equal to a specification function, and
  the properties are proved about that function.

**The unreachable 'unknown' status.** The conditional at
services/orders/features/metrics_service.py:79 has an `'unknown'` branch for
zero requests. Python evaluates the division first, so that branch can never
be reached (see Findings). The model follows the code.

## Model

| member | source | states |
|---|---|---|
| RequestRecord.Key | services/orders/features/metrics_service.py:23 | the key of a request is `method + ":" + endpoint` and always contains the separator ':' |
| RequestRecord.PushWindow | services/orders/features/metrics_service.py:15 | appending to the bounded deque never leaves more than 100 durations |
| RequestRecord.PushWindowOfLast | services/orders/features/metrics_service.py:29 | pushing onto the window of a history gives the window (last 100) of the extended history: oldest evicted, newest appended |
| RequestRecord.ReplaySummary | services/orders/features/metrics_service.py:20-32 | after any sequence of requests a record's count is their number, errors is the number with status ≥ 400 (so errors ≤ count), total_time is the sum of all durations, last_access is the last clock reading and the window is exactly the last 100 durations |
| RequestRecord.ReplayCounts | services/orders/features/metrics_service.py:26-30 | replaying a history gives a count equal to its length, errors equal to the number of samples with status ≥ 400, total_time the sum of its durations and the last sample's clock reading as last access |
| RequestRecord.ReplayWindow | services/orders/features/metrics_service.py:15-29 | the window after replaying a history is exactly the last 100 of its durations, in order |
| RequestRecord.RecordedEffect | services/orders/features/metrics_service.py:20-32 | recording a request puts the updated record under its key, leaves every other key's record as it was and drops no key |
| RequestRecord.RecordedConsistent | services/orders/features/metrics_service.py:10-32 | recording one request keeps every record equal to the replay of its history; a key seen for the first time starts from the zero record |
| RequestRecord.ConsistentBounds | services/orders/features/metrics_service.py:26-32 | every stored record has count ≥ 1, errors ≤ count and 1..100 durations in its window |
| RequestRecord.Ratio | services/orders/features/metrics_service.py:42-45 | the guarded quotient `a / b if b > 0 else 0` is 0 for b = 0, never negative, and at most 1 when a ≤ b |
| RequestRecord.RatioScales | services/orders/features/metrics_service.py:77 | a guarded quotient with nonzero denominator times that denominator gives back the numerator |
| RequestRecord.SumErrorsAtMostSumCounts | services/orders/features/metrics_service.py:67-68 | summed over all records, total errors never exceed total requests |
| RequestRecord.SumCountsZero | services/orders/features/metrics_service.py:67 | the request total is at least 1 as soon as one record has a request |
| RequestRecord.UptimeSeconds | services/orders/features/metrics_service.py:73 | `int(total_seconds())` truncates toward zero: for a clock that moved forward it is the whole seconds elapsed, and never positive for a clock that went back |
| Sorting.SortAsc | services/orders/features/metrics_service.py:49 | `sorted(...)` returns an ascending sequence of the same length as the window |
| Sorting.SortPermutes | services/orders/features/metrics_service.py:49 | `sorted(...)` neither adds nor drops an element: its result is a permutation of the window |
| Sorting.KthSmallest | services/orders/features/metrics_service.py:49-50 | the element at index k of the sorted window is in the window, at most k elements are below it and more than k are at or below it |
| MetricsService.P95Index | services/orders/features/metrics_service.py:50 | `int(n * 0.95)`, equal to `n*95 div 100` for every window size 0..100, is a valid index of a non-empty window |
| MetricsService.P95 | services/orders/features/metrics_service.py:47-51 | the p95 is 0 for an empty window; otherwise it is a window element of rank `int(n * 0.95)` in ascending order |
| MetricsService.ViewOf | services/orders/features/metrics_service.py:42-60 | the derived view carries count, errors and last access, the error rate and average guarded to 0 for count 0, a rate in [0, 1], and the window's p95 |
| MetricsService.ViewOfHistory | services/orders/features/metrics_service.py:42-45 | the average and error rate of a record are taken over the whole history, not just the window |
| MetricsService.P95OfHistory | services/orders/features/metrics_service.py:47-51 | the p95 is chosen from the last at most 100 durations only; after more than 100 requests it is one of the 100 most recent |
| MetricsService.ViewsOf | services/orders/features/metrics_service.py:40-62 | the unfiltered view table has exactly the record table's keys, in the same order, each mapped to its derived view |
| MetricsService.StatusAsWritten | services/orders/features/metrics_service.py:77-79 | the status expression as written fails with ZeroDivisionError exactly when there are no requests; otherwise 'healthy' iff 20·errors < requests, else 'degraded' |
| MetricsService.RateBelowThreshold | services/orders/features/metrics_service.py:79 | `errors / requests < 0.05` is equivalent to `20 · errors < requests` |
| MetricsService.UnknownNeverProduced | services/orders/features/metrics_service.py:79 | the status expression as written never yields 'unknown' |
| MetricsService.ServiceStatusOf | services/orders/features/metrics_service.py:79 | the intended rule: 'unknown' iff there are no requests, 'healthy' iff requests > 0 and 20·errors < requests, 'degraded' iff requests > 0 and 20·errors ≥ requests |
| MetricsService.StatusAgreesWhenDefined | services/orders/features/metrics_service.py:79 | wherever the written expression returns, it agrees with the intended rule |
| MetricsService.KeyLines | services/orders/features/metrics_service.py:98-111 | each key renders to exactly nine lines (HELP, TYPE and value for requests, errors and average duration) |
| MetricsService.KeyBlocksLength | services/orders/features/metrics_service.py:93-111 | all key blocks together have 9 lines per key |
| MetricsService.KeyBlockAt | services/orders/features/metrics_service.py:93-111 | the block of the i-th key, in key order, occupies lines 9i..9i+8 of the key section |
| MetricsService.PrometheusShape | services/orders/features/metrics_service.py:82-111 | the exposition has exactly 3 + 9·keys lines, and the value lines of key i carry its labels, its count and its error count |
| MetricsService.PrometheusOfEmpty | services/orders/features/metrics_service.py:87-90 | with no keys only the three uptime lines are rendered |
| MetricsService.LabelsRecoverKey | services/orders/features/metrics_service.py:94 | splitting a key at its first ':' recovers the method and endpoint given to track_request whenever the method contains no ':' |
| MetricsService.FixedTextsNoNewline | services/orders/features/metrics_service.py:87-111 | none of the metric names and help texts contains a newline |
| MetricsService.KeyLinesNoNewline | services/orders/features/metrics_service.py:95-111 | no line of a key block contains a newline when the key and the printed floats contain none |
| MetricsService.PrometheusTextSplits | services/orders/features/metrics_service.py:113 | joining the lines with "\n" (no trailing newline) and splitting the text at "\n" gives back exactly the lines |
| MetricsService.MetricsStore.constructor | services/orders/features/metrics_service.py:10-18 | a new store has no records and records its start time |
| MetricsService.MetricsStore.TrackRequest | services/orders/features/metrics_service.py:20-32 | only the record under "method:endpoint" changes (created first if absent): count +1, total_time + t, errors +1 iff status ≥ 400, last access now, duration pushed into the window, errors ≤ count kept; every other key's record is unchanged and no key disappears |
| MetricsService.MetricsStore.GetEndpointMetrics | services/orders/features/metrics_service.py:34-62 | a non-empty filter returns the raw record under exactly that key, or nothing, and inserts nothing; a falsy filter returns the derived view of every key, in key order |
| MetricsService.MetricsStore.GetHealthMetrics | services/orders/features/metrics_service.py:64-80 | fails with ZeroDivisionError iff there are no requests; otherwise the status is the intended rule's verdict, totals are the sums over all records, errors ≤ requests, endpoints_count is the number of keys, uptime is the truncated seconds since start, the rate is errors/requests ≤ 1 and the status is healthy iff 20·errors < requests, else degraded |
| MetricsService.MetricsStore.GetPrometheusMetrics | services/orders/features/metrics_service.py:82-113 | the text is the "\n"-join of the uptime block followed by one nine-line block per key, in key order |
| MetricsService.CollectViews | services/orders/features/metrics_service.py:40-62 | the view-building loop yields exactly the view table of the records |
| MetricsService.RenderLines | services/orders/features/metrics_service.py:86-111 | the line-appending loop yields exactly the specified exposition lines |
| MetricsService.RecordedStatus | services/orders/features/metrics_service.py:135-140 | the recorded status is the result's status_code when it has one, else the tuple's second element, else 200; a raised exception records 500 |
| MetricsService.EndpointName | services/orders/features/metrics_service.py:125 | the endpoint part of the key is Flask's view name, or 'unknown' when the request has none |
| MetricsService.TrackMetrics | services/orders/features/metrics_service.py:115-157 | a wrapped call records exactly one request, under the view name with the extracted status (500 if the handler raised), and returns the handler's result or re-raises its exception |
| AnalyticsService.MetricsViewOf | services/orders/features/analytics_service.py:196-207 | the view carries count, errors and last access, error rate and average guarded to 0 for count 0, a rate in [0, 1], and no p95 |
| AnalyticsService.ViewIgnoresWindow | services/orders/features/analytics_service.py:25 | the duration window never influences the view |
| AnalyticsService.MetricsViewOfHistory | services/orders/features/analytics_service.py:196-204 | for any history the view's total, average and error rate are over the whole history |
| AnalyticsService.MetricsViewsOf | services/orders/features/analytics_service.py:191-209 | one view per record key, same keys in the same order |
| AnalyticsService.AnalyticsService.constructor | services/orders/features/analytics_service.py:18-28 | a new service has no records and records its start time |
| AnalyticsService.AnalyticsService.TrackRequest | services/orders/features/analytics_service.py:177-189 | only the record under "method:endpoint" changes: count +1, total_time + t, errors +1 iff status ≥ 400, errors ≤ count, window ≤ 100; every other key's record is unchanged |
| AnalyticsService.AnalyticsService.GetMetrics | services/orders/features/analytics_service.py:191-209 | returns exactly the view table of the current records, every error rate at most 1, and changes nothing |
| AnalyticsService.AnalyticsService.GetHealthStatus | services/orders/features/analytics_service.py:211-224 | the status is always 'healthy'; totals are sums over all records with errors ≤ requests; the rate is guarded (0 with no requests, so no division by zero) and at most 1; nothing changes |
| AnalyticsService.CollectMetrics | services/orders/features/analytics_service.py:194-209 | the view-building loop yields exactly the view table |
| Responses.WithOptionalKeys | services/orders/features/utils.py:36-41 | 'data' is added iff data is not None (so falsy values stay), 'message' and 'error' iff truthy; existing keys are kept and no other key is added |
| Responses.FalsyDataKept | services/orders/features/base_service.py:29-30 | data 0, {}, "" or False is still included |
| Responses.EmptyTextOmitted | services/orders/features/base_service.py:31-34 | an empty message or error string is omitted exactly like a missing one |
| Utils.CreateApiResponse | services/orders/features/utils.py:27-43 | the body always has 'success' and 'timestamp'; it has 'data' iff data is not None, holding the given data; it has 'message' and 'error' iff they are truthy, holding the given strings; it has nothing else; the status code is returned unchanged |
| Utils.MissingFieldsMembers | services/orders/features/utils.py:50 | a field is reported iff it is required and absent from the data |
| Utils.MissingFieldsCount | services/orders/features/utils.py:50 | an absent field is reported as many times as it is required, a present one never |
| Utils.MissingFieldsConcat | services/orders/features/utils.py:50 | the missing list keeps the order of the required list |
| Utils.ValidateRequestData | services/orders/features/utils.py:45-54 | returns None iff the data is non-empty and holds every required field; "Request data is required" for missing or empty data; otherwise "Missing required fields: " followed by the ", "-join of the missing fields |
| Utils.EmptyBodyRefused | services/orders/features/utils.py:47-48 | an empty or missing body is refused even when no field is required |
| Utils.DuplicateReportedTwice | services/orders/features/utils.py:50-52 | a field required twice and missing appears twice in the message |
| BaseService.BaseService.constructor | services/orders/features/base_service.py:13-14 | the service name is the given name when truthy, otherwise the class name |
| BaseService.BaseService.CreateResponse | services/orders/features/base_service.py:21-36 | the response always has 'success' and 'service'; it has 'data' iff data is not None, holding the given data; it has 'message' and 'error' iff they are truthy, holding the given strings; it has no other key |
| AutoLabel.LastIndex | auto_label_microservice.py:7 | the last position of a character, or -1 when it does not occur |
| AutoLabel.Ext | auto_label_microservice.py:7 | the extension is empty or a suffix of the name that starts with '.', contains no other '.' and no '/' |
| AutoLabel.LowerIdempotent | auto_label_microservice.py:7 | lower-casing an already lower-cased name changes nothing |
| AutoLabel.SimpleLabel | auto_label_microservice.py:6-17 | the label is one of exactly five; 'image' iff the lowered extension is .jpg/.jpeg/.png, 'document' iff .pdf, 'word_document' iff .docx/.doc, 'excel_document' iff .xlsx/.xls, otherwise 'other' |
| AutoLabel.LabelOfExt | auto_label_microservice.py:8-17 | an extension maps to one of the five labels: image for .jpg/.jpeg/.png, document for .pdf, word_document for .docx/.doc, excel_document for .xlsx/.xls, other for anything else |
| AutoLabel.LastIndexOfLower | auto_label_microservice.py:7 | lowering does not move the last '.' or '/' |
| AutoLabel.ExtOfLower | auto_label_microservice.py:7 | the extension of the lowered name is the lowered extension |
| AutoLabel.CaseInsensitive | auto_label_microservice.py:7-17 | the label of a name equals the label of its lower-cased form |
| AutoLabel.ExtAfterLastDot | auto_label_microservice.py:7 | only the text after the last dot counts as extension |
| AutoLabel.DotFileIsOther | auto_label_microservice.py:7-17 | the dot-file ".png" has no extension and is 'other' |
| AutoLabel.NoExtensionIsOther | auto_label_microservice.py:16-17 | a name without extension is 'other' |
| AutoLabel.DotInDirectoryIsOther | auto_label_microservice.py:7 | a dot in a directory part is not an extension |
| QualityChecks.PassFail | services/orders/features/data_validator.py:287 | 'pass' iff passed, 'fail' iff not |
| QualityChecks.Percentage | services/orders/features/data_validator.py:104 | the guarded percentage takes the given fallback for an empty collection and is never negative |
| QualityChecks.PercentageBounds | services/orders/features/data_validator.py:369 | for part ≤ whole and whole > 0, the percentage lies in [0, 100] and is 100 iff part == whole |
| QualityChecks.CountStatusAtMost | services/orders/features/data_validator.py:364-367 | checks with a given status never outnumber checks with any status |
| QualityChecks.CountStatusAll | services/orders/features/data_validator.py:364-367 | the count of a status equals the count of status-bearing checks iff every status-bearing check has that status |
| QualityChecks.QualityScoreBounds | services/orders/features/data_validator.py:356-369 | the score counts only dict checks with a status, is 0.0 when there are none, lies in [0, 100], and is 100 iff there are some and all pass |
| QualityChecks.CountsConcat | services/orders/features/data_validator.py:362-367 | the two counters over a concatenation of check runs are the sums of the counters over each run |
| QualityChecks.MessagesConcat | services/orders/features/data_validator.py:362-367 | the advice over a concatenation of check runs is the concatenation of the advice of each run |
| QualityChecks.CountColumn | services/orders/features/data_validator.py:363-367 | the inner loop counts the status-bearing and the passed checks of one column |
| QualityChecks.CalculateQualityScore | services/orders/features/data_validator.py:356-369 | the nested counting loops compute exactly the specified score |
| QualityChecks.CheckMessage | services/orders/features/data_validator.py:379-386 | a failed check has advice iff its name is completeness, uniqueness, validity or consistency, and that advice always differs from the all-clear message |
| QualityChecks.FailMessagesShape | services/orders/features/data_validator.py:376-386 | one message per actionable check, none for warnings or other names, so no message is the all-clear message |
| QualityChecks.NoMessagesIff | services/orders/features/data_validator.py:378-388 | there is no advice iff no named check has status 'fail' |
| QualityChecks.NoneActionable | services/orders/features/data_validator.py:378-386 | no check of a run is dropped from the advice iff none of them is a failed check with one of the four advised names |
| QualityChecks.RecommendationsShape | services/orders/features/data_validator.py:371-391 | between 1 and 10 messages; exactly the all-clear message iff no named check failed; otherwise the first min(n, 10) of the n messages of the failed checks, in column-then-check order |
| QualityChecks.ColumnMessages | services/orders/features/data_validator.py:377-386 | the inner loop appends exactly the advice of the column's actionable checks, in order |
| QualityChecks.GenerateRecommendations | services/orders/features/data_validator.py:371-391 | the nested loops and the cut to 10 give exactly the specified recommendation list |
| QualityAssessment.Band | services/orders/features/data_validator.py:239 | 'pass' iff below the lower bound, 'warning' iff in [lower, upper), 'fail' iff at or above the upper bound |
| QualityAssessment.ColumnReportOf | services/orders/features/data_validator.py:232-273 | a column report has 4 checks (5 at the comprehensive level), each a dict with one of the three statuses |
| QualityAssessment.ColumnReportEntries | services/orders/features/data_validator.py:236-273 | the checks come in order completeness 5/10, uniqueness 2/5, validity 1/3, consistency 3/7; the distribution check exists iff the level is comprehensive and is always 'pass' |
| Dicts.Deduplicated | services/orders/features/data_validator.py:275 | the report's columns are the distinct column names, in order of first occurrence |
| Dicts.DeduplicatedShorter | services/orders/features/data_validator.py:275 | the report has fewer columns than the list iff some name repeats |
| Dicts.PutAllKeys | services/orders/features/data_validator.py:275 | assigning `report[column] = ...` for each column in turn leaves the distinct columns as keys, in order of first assignment |
| Dicts.PutAllValues | services/orders/features/data_validator.py:275 | every value held afterwards is one of the assigned values |
| Dicts.PutAllLast | services/orders/features/data_validator.py:275 | a key assigned for the last time at position i holds the value assigned there |
| QualityAssessment.AssessedReport | services/orders/features/data_validator.py:227-277 | the assessed report is a well-formed nested dictionary |
| QualityAssessment.AssessedKeys | services/orders/features/data_validator.py:232-275 | the report's keys are the distinct column names in first-occurrence order |
| QualityAssessment.AssessedColumns | services/orders/features/data_validator.py:232-275 | every column report is banded and has the level's number of checks |
| QualityAssessment.AssessedEntry | services/orders/features/data_validator.py:275 | a repeated column keeps the report built from its last occurrence |
| QualityAssessment.AssessDataQuality | services/orders/features/data_validator.py:227-277 | the column loop builds exactly the specified report |
| QualityAssessment.BandedRunCounts | services/orders/features/data_validator.py:53-55 | over banded checks, pass + warning + fail counts add up to the number of checks |
| QualityAssessment.ReportFindingsLength | services/orders/features/data_validator.py:362-363 | a report with a fixed number of checks per column has that many checks per column in total |
| QualityAssessment.AssessedCounts | services/orders/features/data_validator.py:50-55 | passed + failed + warning equals 4 per distinct column (5 when comprehensive) |
| QualityAssessment.AssessedShape | services/orders/features/data_validator.py:232-275 | the three status counts of an assessed report add up to the level's checks per report column; the report has at most as many columns as the list, and fewer iff some name repeats |
| QualityAssessment.CheckDataQuality | services/orders/features/data_validator.py:24-66 | columns default to column1..column4 and the level to standard; score and recommendations are those of the report; the three counts add up to the level's checks per distinct column; total_columns_assessed is the raw list length, which exceeds the report's column count iff a name repeats |
| SchemaValidation.ViolationsCount | services/orders/features/data_validator.py:303-308 | one violation per failed rule check, each describing that rule of that column |
| SchemaValidation.ViolationsSnoc | services/orders/features/data_validator.py:293-308 | one more rule check adds a violation for that rule exactly when its draw failed |
| SchemaValidation.ValidateColumnSchema | services/orders/features/data_validator.py:279-310 | the column's status comes from its own draw; one rule check per rule in rule order with that rule's value and draw; the violations are exactly those of the failed rule checks; the result is the specified column result |
| SchemaValidation.FailedColumns | services/orders/features/data_validator.py:117 | the violations are results of the run with status 'fail' |
| SchemaValidation.FailedColumnsCount | services/orders/features/data_validator.py:113-117 | the number of failed results is the total minus the passed ones |
| SchemaValidation.ValidateColumns | services/orders/features/data_validator.py:98-100 | the column loop yields one `_validate_column_schema` result per schema column, in schema order, each exactly the specified column result |
| SchemaValidation.SchemaReportOf | services/orders/features/data_validator.py:98-117 | one result per schema column in schema order, each exactly the result `_validate_column_schema` builds for that column's rules and draws (its rule checks and violations included); failed = total − passed; the violations are exactly the failed results; compliance is passed/total·100 and 0 for an empty schema |
| SchemaValidation.ValidateSchema | services/orders/features/data_validator.py:68-126 | the report is the specified schema report, with an absent schema read as empty and strict_mode defaulting to false |
| SchemaValidation.ComplianceBounds | services/orders/features/data_validator.py:104 | schema compliance lies in [0, 100] and is 100 iff the schema is non-empty and every column passed |
| BusinessRules.ValidateBusinessRule | services/orders/features/data_validator.py:340-354 | a rule without 'rule_id' raises KeyError for it, then one without 'description'; otherwise violations_count is 0 iff the rule passed, equals the drawn count when violated, severity defaults to 'medium' and compliance follows the rule's formula |
| BusinessRules.RuleComplianceRange | services/orders/features/data_validator.py:345-353 | a passed rule has compliance 100; a violated one (1..49 violations) lies strictly between 95 and 100, so compliance is 100 iff the rule passed |
| BusinessRules.NotPassed | services/orders/features/data_validator.py:216 | the violations are results of the run that did not pass |
| BusinessRules.NotPassedCount | services/orders/features/data_validator.py:213-216 | the number of non-passed results is the total minus the passed ones |
| BusinessRules.ValidateBusinessRules | services/orders/features/data_validator.py:173-225 | the call fails iff some rule lacks 'rule_id' or 'description', with the KeyError of the first such rule; otherwise one result per rule, failed = total − passed, violations are exactly the non-passed results and compliance is passed/total·100, 100 for an empty list |
| BusinessRules.RulesComplianceBounds | services/orders/features/data_validator.py:204 | rule compliance is 100 for an empty list, lies in [0, 100], and is 100 iff every rule passed |
| Anomalies.Multiplier | services/orders/features/data_validator.py:316 | the sensitivity table knows exactly 'low', 'medium' and 'high' |
| Anomalies.AnomalyCountRange | services/orders/features/data_validator.py:317 | the per-column anomaly count lies in 2..9 for low, 5..19 for medium and 7..29 for high sensitivity |
| Anomalies.ColumnAdvice | services/orders/features/data_validator.py:399-402 | a column gets at most one message, and one iff its count exceeds 5 |
| Anomalies.AnomalyAdviceShape | services/orders/features/data_validator.py:398-402 | at most one message per column, and none iff no column exceeds 5 |
| Anomalies.AdviceCountZero | services/orders/features/data_validator.py:399-402 | no column is advised iff every column's count is at most 5 |
| Anomalies.AdviceLength | services/orders/features/data_validator.py:398-402 | the advice has one message per column whose count exceeds 5 |
| Anomalies.AnomalyRecommendationsShape | services/orders/features/data_validator.py:393-407 | the fallback message alone iff no column exceeds 5; otherwise exactly the per-column advice in column order |
| Anomalies.GenerateAnomalyRecommendations | services/orders/features/data_validator.py:393-407 | the appending loop gives exactly the specified recommendations |
| Anomalies.CountsOf | services/orders/features/data_validator.py:145-147 | the result table has exactly the listed columns as keys |
| Anomalies.CountColumns | services/orders/features/data_validator.py:145-147 | the column loop computes exactly the count table, a repeated column keeping its last count |
| Anomalies.DetectAnomalies | services/orders/features/data_validator.py:128-171 | fails iff there is a column to analyse and the sensitivity is unknown (KeyError) or the method list is empty (ValueError); otherwise the counts, their total, columns_analyzed = list length, the methods, the sensitivity and the recommendations of the counts |

## Left out

- Locking: the `Lock` of both trackers only serves thread safety. All calls are modelled one after another. Uptime in the Prometheus text is read outside the lock, which has no meaning in a sequential model.
- Clock and date formatting: `datetime.now()` is a natural-number input. These are not modelled: `isoformat()`, the `str(timedelta)` of `uptime_human`, and the validation timestamps.
- Float details: these are not modelled:
  - `round(..., 2)` and `round(..., 3)`;
  - the ×1000 scaling to milliseconds;
  - binary floating-point error.

  Rates and averages are exact reals in the duration unit. The printed form of a float in the Prometheus text is the parameter `formatFloat`.
- MetricsService.TrackMetrics: does not model a non-integer second tuple element. For a non-integer status, `track_request` raises TypeError after updating count, total time, last access and the window. The `except` branch then records the same request again with 500. No handler in the repository returns such a tuple.
- MetricsService.MetricsStore.GetEndpointMetrics: returns the record as a value, so these are not modelled:
  - aliasing of the returned record and its deque;
  - the `jsonify` failure on a deque or a datetime.
- Python exceptions other than `Exception` (for example `KeyboardInterrupt`) bypass the decorator's handler. They are not modelled.
- AutoLabel.Lower: lowers ASCII capitals only. The only non-ASCII character whose `lower()` is an ASCII letter used in an extension list is the Kelvin sign, which lowers to 'k'. No extension contains 'k', so no label changes.
- Request values that are not dictionaries or lists are not modelled: a non-dict rule, a non-list column list, or a non-dict schema entry. Each of these would end in the `except` branch with a type error.
- Anomalies.DetectAnomalies: keeps only each column's anomaly count. These are not modelled:
  - the random type, severity, method and confidence of each anomaly record;
  - the per-column result dictionaries.
- QualityAssessment.ColumnReportOf: keeps only each check's status. These are not modelled:
  - the measured percentages;
  - the description texts;
  - the random skewness and kurtosis of the distribution check.
- The `validation_rules` table of `DataValidator.__init__` is never read by the modelled operations, so it is not modelled.
- The fixed 'status' and 'message' texts of the validator results are not modelled, and neither is the `jsonify` call of `create_api_response`.
- The Prometheus text repeats HELP and TYPE for every key and does not escape label values. Neither is allowed by the Prometheus text exposition format, version 0.0.4. The model renders the lines as the code writes them.

## Findings

| source | as written | input that shows it | evidently intended | confidence | as-written member | corrected member |
|---|---|---|---|---|---|---|
| services/orders/features/metrics_service.py:79 | the health status divides errors by requests before it tests `total_requests > 0`, so with no requests the call raises ZeroDivisionError and 'unknown' is never returned | a new store whose first request is GET /api/v1/metrics/health: the handler runs before the decorator records it, so there are 0 requests | 'unknown' when there are no requests, otherwise 'healthy' iff fewer than 5% of requests failed | not executed | MetricsService.StatusAsWritten | MetricsService.ServiceStatusOf |
