# Funnel analytics core, modelled in Dafny

This project models the sequential funnel engine of the analytics platform together with three small neighbours:

- The funnel engine lives in `packages/rpc/src/lib/analytics-utils.ts`. It groups a funnel query's rows into one timeline per visitor. It runs the step state machine over each timeline, in time order, and counts the visitors who reached each step. It collects the time between steps and the time to complete the funnel. From these it derives per-step conversion and drop-off figures, the overall conversion, the biggest drop-off, the per-day series, the single-step "goal" variant, and the breakdown by first referrer. It also builds the allow-listed filter clause that every funnel query carries.
- The query-builder schema lives in `packages/shared/src/schema/analytics-tables.ts`: column defaults, table and column lookups, and the filterable and aggregatable column lists.
- The dashboard query hook lives in `apps/dashboard/hooks/use-dynamic-query.ts`: the filter renaming, the request defaults, the fold of a batch response, the de-duplication of profiles, and the pagination flags.
- The plan checks live in `packages/rpc/src/types/billing.ts`: `hasPlan`, `isFreePlan`, and the error chosen by `requireFeature` and `requireUsageWithinLimit`.

Conventions:

- Percentages are integers in hundredths of a percent: the source's `pct` returning 42.86 is 4286 here. `Math.round` of a quotient is modelled exactly, half-up, by `Metrics.RoundDiv`.
- A JavaScript `Map` is modelled as its keys in insertion order plus a Dafny `map`.
- The stable `Array.prototype.sort` with a numeric comparator is modelled as a stable insertion sort (`Seqs.SortBy`). The visitor timelines are sorted in place in the source; the model sorts them as values. Sorting is idempotent (`Seqs.SortByIdempotent`), so the repeated sorts of the same arrays have no further effect.
- The source's loops are methods proved against three kinds of fold function: `CountMap` for step counts, `TimingMap` and `CompletionTimes` for timings, and `GroupsOf` and `Segments` for referrers. A `...Meaning` lemma ties each fold to a set or sequence definition, stated independently of the loop.

Modules, one per file:

| file | module | models |
|---|---|---|
| common.dfy | Common | `Option`, `Result`, API errors |
| text.dfy | Text | ASCII lower-casing, prefixes, `join`, decimal rendering and its parser |
| seqs.dfy | Seqs | subsequences, `filter`, sums, stable sort |
| metrics.dfy | Metrics | `pct`, `safeAvg`, `formatDuration` |
| filters.dfy | FilterClause | `buildFilterConditions` |
| visitor_events.dfy | VisitorEvents | `processVisitorEvents` |
| state_machine.dfy | StateMachine | step matching, `calculateStepCounts`, the timing loop |
| funnel_stats.dfy | FunnelStats | `processFunnelAnalytics`, `processGoalAnalytics` |
| referrers.dfy | Referrers | `parseReferrer`, `processFunnelAnalyticsByReferrer` |
| analytics_tables.dfy | AnalyticsTables | `col`, the six table definitions, the lookups |
| dynamic_query.dfy | DynamicQuery | `use-dynamic-query.ts` helpers |
| billing.dfy | Billing | plan ordering and plan errors |

Where the code and the written design of the system disagree, the model follows the code. The one place where the model departs from the code is the duration label: the funnel carries the corrected `formatDuration` (see "## Findings" and "## Left out"). The points where code and design disagree:

- `parseReferrer` compares with "Direct" case-sensitively; only "(direct)" is matched in any case (`Referrers.DirectSpellings`).
- The filter allow-list has 16 fields.
- A list value under any operator other than `in` becomes `NOT IN`. A single string under `in` or `not_in` becomes a `!=` comparison (`FilterClause.OperatorValueMismatch`).
- The step machine only advances on the next expected step and skips every other event. So a visitor whose time-ordered steps are 1, 3, 2 reaches step 2, not only step 1 (`StateMachine.OutOfOrderStepsIgnored`).

## Model

| member | source | states |
|---|---|---|
| Metrics.RoundDiv | packages/rpc/src/lib/analytics-utils.ts:80-83 | `Math.round(a / b)`: the result is the integer within half of a/b, halves rounded up; non-negative for non-negative a |
| Metrics.RoundDivUnique | packages/rpc/src/lib/analytics-utils.ts:80-83 | the rounding bounds determine the rounded quotient uniquely |
| Metrics.Pct | packages/rpc/src/lib/analytics-utils.ts:82-83 | 0 for a non-positive whole; otherwise 10000·a/b rounded to the nearest hundredth of a percent |
| Metrics.PctOfPart | packages/rpc/src/lib/analytics-utils.ts:82-83 | a part of a whole gives a percentage within 0..100.00, exactly 100.00 for the whole and 0 for nothing |
| Metrics.PctMonotone | packages/rpc/src/lib/analytics-utils.ts:82-83 | a larger part never gives a smaller percentage |
| Metrics.SafeAvg | packages/rpc/src/lib/analytics-utils.ts:79-80 | 0 for no samples; otherwise the rounded mean, within half of sum/count |
| Metrics.SafeAvgBetween | packages/rpc/src/lib/analytics-utils.ts:79-80 | the rounded mean lies between the smallest and the largest sample |
| Metrics.SafeAvgNonNegative | packages/rpc/src/lib/analytics-utils.ts:79-80 | the mean of non-negative samples is non-negative |
| Metrics.ShortLabelReadsBack | packages/rpc/src/lib/analytics-utils.ts:67-73 | under a minute the label is a single seconds term; otherwise its first term is the minutes, followed by a space and a seconds term exactly when the seconds are not zero; the label reads back as exactly its minutes and seconds |
| Metrics.FormatDurationReadsBack | packages/rpc/src/lib/analytics-utils.ts:66-77 | the (corrected) label is the dash for no duration; otherwise it reads back as a clock with minutes and seconds below 60 and within half a minute of the duration |
| Metrics.FormatDurationAsWrittenReadsBack | packages/rpc/src/lib/analytics-utils.ts:74-76 | the hour label as written reads back within half a minute of the duration, but with minutes up to 60 |
| Metrics.HourLabelReads | packages/rpc/src/lib/analytics-utils.ts:74-76 | the hour label as written reads back as `floor(s/3600)` hours and the rounded minutes of the remainder |
| Metrics.MinutesReachSixty | packages/rpc/src/lib/analytics-utils.ts:75 | the rounded minutes are 60 exactly when the hour remainder is at least 59 minutes 30 seconds |
| Metrics.SixtyMinutesLabel | packages/rpc/src/lib/analytics-utils.ts:74-76 | the code as written labels 7170 seconds "1h 60m" |
| Metrics.SixtyMinutesCarried | packages/rpc/src/lib/analytics-utils.ts:74-76 | the corrected label of 7170 seconds is "2h" |
| Metrics.FormatDurationAgrees | packages/rpc/src/lib/analytics-utils.ts:66-77 | the corrected and the as-written labels agree wherever the rounded minutes stay below 60 |
| Metrics.CarriedLabelDiffers | packages/rpc/src/lib/analytics-utils.ts:74-76 | in the last half minute of an hour the corrected and the as-written labels differ |
| FilterClause.BuildFilterConditions | packages/rpc/src/lib/analytics-utils.ts:124-185 | the loop returns the error messages and the ` AND `-joined clause of the valid filters, and writes exactly their bindings into `params` |
| FilterClause.ErrorOrCondition | packages/rpc/src/lib/analytics-utils.ts:132-179 | every filter yields exactly one error or one condition |
| FilterClause.ErrorsOfInvalid | packages/rpc/src/lib/analytics-utils.ts:133-140 | the errors are the messages of the invalid filters, in order: an unknown field is reported before an unknown operator |
| FilterClause.NoErrorsIffAllValid | packages/rpc/src/lib/analytics-utils.ts:133-140 | there are no errors exactly when every field and operator is allowed |
| FilterClause.ClauseOfAppend | packages/rpc/src/lib/analytics-utils.ts:181-183 | the clause of a concatenation of filter lists is the concatenation of their clauses |
| FilterClause.NullChecksBindNothing | packages/rpc/src/lib/analytics-utils.ts:145-148 | `is_null`/`is_not_null` bind no parameter and test `IS NULL`/`IS NOT NULL`; every other valid filter binds one |
| FilterClause.ListsBoundUnchanged | packages/rpc/src/lib/analytics-utils.ts:149-155 | a list is bound as it is and tested with `IN` under `in`, `NOT IN` otherwise |
| FilterClause.StringPatternsRoundTrip | packages/rpc/src/lib/analytics-utils.ts:156-177 | a string is bound with the `%` its operator adds around the escaped value, and un-escaping gives the value back |
| FilterClause.UnescapeEscape | packages/rpc/src/lib/analytics-utils.ts:157 | escaping `%` and `_` loses nothing: un-escaping inverts it |
| FilterClause.EscapedWildcardsAreQuoted | packages/rpc/src/lib/analytics-utils.ts:157 | every `%` or `_` left in an escaped value is preceded by a backslash |
| FilterClause.OperatorValueMismatch | packages/rpc/src/lib/analytics-utils.ts:149-176 | a single string under `in` is compared with `!=`, and a list under `equals` is excluded with `NOT IN` |
| FilterClause.BindKeys | packages/rpc/src/lib/analytics-utils.ts:142-171 | a key is bound afterwards exactly when it was bound before or is the key of a valid non-null filter; no key is removed |
| FilterClause.LastBindingWins | packages/rpc/src/lib/analytics-utils.ts:142-171 | a key bound twice holds the later filter's value |
| VisitorEvents.ProcessVisitorEvents | packages/rpc/src/lib/analytics-utils.ts:251-273 | the loop builds the visitors in first-seen order, each with its events in row order |
| VisitorEvents.FirstSeenMeaning | packages/rpc/src/lib/analytics-utils.ts:261-271 | the visitors are listed once each, and are exactly the ids of the rows |
| VisitorEvents.EventsOfMeaning | packages/rpc/src/lib/analytics-utils.ts:262-271 | a visitor has events exactly when it has rows, and each event comes from one of its rows |
| VisitorEvents.GroupedWellFormed | packages/rpc/src/lib/analytics-utils.ts:261-272 | the grouping is a well-formed map: listed keys are distinct and are exactly its keys |
| VisitorEvents.GroupingConservesRows | packages/rpc/src/lib/analytics-utils.ts:262-271 | the timelines hold exactly as many events as there were rows |
| StateMachine.ReachesIffLadder | packages/rpc/src/lib/analytics-utils.ts:284-293 | a visitor reaches step k exactly when 1, 2, …, k occur in order, as a subsequence, in its time-ordered events |
| StateMachine.MatchTimesCongruent | packages/rpc/src/lib/analytics-utils.ts:286-293 | two event histories with the same matches stay equivalent under any common continuation |
| StateMachine.IgnoredEventChangesNothing | packages/rpc/src/lib/analytics-utils.ts:286-293 | an event that is not the next expected step has no effect on the matching |
| StateMachine.MatchTimesAreEventTimes | packages/rpc/src/lib/analytics-utils.ts:286-293 | every matched time is the time of one of the visitor's events |
| StateMachine.MatchTimesAscending | packages/rpc/src/lib/analytics-utils.ts:284-293 | on time-sorted events the matched times ascend |
| StateMachine.OutOfOrderStepsIgnored | packages/rpc/src/lib/analytics-utils.ts:285-293 | steps 1, 3, 2 in time order reach step 2; steps 1, 2, 3 reach step 3 |
| StateMachine.ReachesFirstStep | packages/rpc/src/lib/analytics-utils.ts:284-293 | a visitor reaches step 1 exactly when it has a step-1 event |
| StateMachine.HasStepReordered | packages/rpc/src/lib/analytics-utils.ts:284 | reordering by the sort keeps every step a visitor has |
| StateMachine.CalculateStepCounts | packages/rpc/src/lib/analytics-utils.ts:275-296 | the count for step k is the set of (filtered) visitors that reach step k, and k is a key exactly when that set is non-empty |
| StateMachine.CountVisitor | packages/rpc/src/lib/analytics-utils.ts:284-293 | one visitor's pass adds it to the sets of steps 1..n it reaches and to no other |
| StateMachine.CountMapMeaning | packages/rpc/src/lib/analytics-utils.ts:279-295 | the fold of the counting loop gives, for each step, exactly the visitors that reach it |
| StateMachine.ReachedMonotone | packages/rpc/src/lib/analytics-utils.ts:285-293 | every visitor that reaches step k+1 reached step k, so the counts never grow along the funnel |
| StateMachine.ReachedMeaning | packages/rpc/src/lib/analytics-utils.ts:281-293 | a visitor is counted at step k exactly when it passes the filter and its progress is at least k |
| StateMachine.FilteredCounts | packages/rpc/src/lib/analytics-utils.ts:282 | counting with a visitor filter is counting everyone and intersecting with the filter |
| StateMachine.CollectTimings | packages/rpc/src/lib/analytics-utils.ts:328-353 | the timing loop yields each step's samples and the completion times in visitor order |
| StateMachine.TimeVisitor | packages/rpc/src/lib/analytics-utils.ts:332-352 | one visitor's pass appends the gaps between consecutive matches and, when the last step is matched, first-to-last time |
| StateMachine.ObserveEvent | packages/rpc/src/lib/analytics-utils.ts:338-351 | one event either is the next step and extends the matched times, with its gap and completion time recorded, or changes nothing |
| StateMachine.TimingMapMeaning | packages/rpc/src/lib/analytics-utils.ts:329-346 | the fold of the timing loop gives each step's samples, and a step is a key exactly when it has some |
| StateMachine.StepTimingsNonNegative | packages/rpc/src/lib/analytics-utils.ts:332-346 | because events are time-sorted, every gap between steps is non-negative |
| StateMachine.CompletionTimesNonNegative | packages/rpc/src/lib/analytics-utils.ts:332-349 | every completion time is non-negative |
| StateMachine.OneSamplePerVisitor | packages/rpc/src/lib/analytics-utils.ts:337-351 | step k ≥ 2 has one sample per visitor reaching it; completion has one per visitor reaching the last step |
| FunnelStats.StepStats | packages/rpc/src/lib/analytics-utils.ts:358-374 | one statistics entry per step, numbered from 1 and named after its step |
| FunnelStats.ReachedAntitone | packages/rpc/src/lib/analytics-utils.ts:358-362 | a later step has at most the visitors of an earlier one |
| FunnelStats.StepUsers | packages/rpc/src/lib/analytics-utils.ts:356-368 | a step's users are the visitors reaching it, its total is the step-1 count, and users never exceed the total |
| FunnelStats.FirstStepStats | packages/rpc/src/lib/analytics-utils.ts:358-373 | step 1 converts at 100.00, drops nobody, has no timing and has all the users |
| FunnelStats.NoFirstStepTimings | packages/rpc/src/lib/analytics-utils.ts:339-341 | no gap is recorded for step 1 |
| FunnelStats.LaterStepStats | packages/rpc/src/lib/analytics-utils.ts:358-373 | for later steps, users plus drop-offs equal the previous step's users, drop-offs are non-negative, and both rates are `pct` of the previous step, within 0..100.00 |
| FunnelStats.RatesComplement | packages/rpc/src/lib/analytics-utils.ts:369-371 | conversion and drop-off rates of a step add up to 100.00, or one hundredth over from rounding |
| FunnelStats.StepAvgTime | packages/rpc/src/lib/analytics-utils.ts:372 | a step's average time is the rounded mean of its gaps and is non-negative |
| FunnelStats.MaxByRateIsFirstMaximum | packages/rpc/src/lib/analytics-utils.ts:377-380 | the strict-`>` reduce picks the first entry with the largest drop-off rate |
| FunnelStats.BiggestDropoffIsFirstMaximum | packages/rpc/src/lib/analytics-utils.ts:376-380 | with two or more steps the biggest drop-off is the first step after the first with the largest rate |
| FunnelStats.BiggestDropoffOfOneStep | packages/rpc/src/lib/analytics-utils.ts:377-380 | with one step the biggest drop-off is that step |
| FunnelStats.Round | packages/rpc/src/lib/analytics-utils.ts:409 | `Math.round` of a real is within half of it |
| FunnelStats.TimeSeries | packages/rpc/src/lib/analytics-utils.ts:383-413 | a failed series query gives no points; otherwise one point per row |
| FunnelStats.TimeSeriesPoints | packages/rpc/src/lib/analytics-utils.ts:403-410 | each point keeps the date and reads missing counts as 0; drop-offs plus conversions equal users; the rate is `pct` of conversions over users, 0 for a day without users; consistent counts give a rate within 0..100.00; the time is the rounded average, 0 when missing |
| FunnelStats.ProcessFunnelAnalytics | packages/rpc/src/lib/analytics-utils.ts:299-426 | rejects exactly the invalid filters with "Invalid filters: …"; otherwise returns the funnel of the grouped rows; binds the filters into `params` |
| FunnelStats.FunnelTotals | packages/rpc/src/lib/analytics-utils.ts:415-424 | entered = step-1 visitors, completed = last-step visitors ≤ entered, overall rate is `pct` of completed over entered, within 0..100.00, one entry per step |
| FunnelStats.FunnelCompletionTime | packages/rpc/src/lib/analytics-utils.ts:347-355 | the average completion time is the rounded mean of one first-to-last time per completing visitor, and is non-negative |
| FunnelStats.FunnelLabel | packages/rpc/src/lib/analytics-utils.ts:420 | the average completion label is the corrected `formatDuration` of the average; it equals the as-written label exactly when the average is under an hour or its hour remainder is under 59 min 30 s |
| FunnelStats.FunnelBiggestDropoff | packages/rpc/src/lib/analytics-utils.ts:421-422 | the reported biggest drop-off step and rate are those of the first maximal step, defaulting to step 1 and rate 0 |
| FunnelStats.ProcessGoalAnalytics | packages/rpc/src/lib/analytics-utils.ts:429-474 | rejects exactly the invalid filters; otherwise returns the goal figures of the first step; binds the filters |
| FunnelStats.GoalMeaning | packages/rpc/src/lib/analytics-utils.ts:454-473 | completions are the visitors with a step-1 event; entered is the caller's visitor total; the rate is `pct` of completions over that total (50 of 1000 gives 5.00), 0 without site users and within 0..100.00 when completions do not exceed them; the single step entry is step 1 with the completions, the total, that rate and zero dropoffs and time; no average time and the dash label |
| Referrers.ParseReferrerMeaning | packages/rpc/src/lib/analytics-utils.ts:85-110 | exactly the direct markers parse to Direct; any other referrer keeps its text as `url`; domains are lower-case |
| Referrers.DirectSpellings | packages/rpc/src/lib/analytics-utils.ts:86-95 | "(DIRECT)" is Direct; "direct" parses as an ordinary host but keys the "direct" group |
| Referrers.UnparseableHasNoDomain | packages/rpc/src/lib/analytics-utils.ts:107-109 | a referrer whose URL does not parse keeps its text as name and url and has no domain |
| Referrers.GroupByReferrer | packages/rpc/src/lib/analytics-utils.ts:505-516 | the grouping loop yields the fold over the visitors in first-seen order |
| Referrers.JoinGroup | packages/rpc/src/lib/analytics-utils.ts:512-515 | a new key opens a group with the parsed referrer of its first visitor, appended after the existing keys; the visitor joins the group of its key |
| Referrers.GroupsWellFormed | packages/rpc/src/lib/analytics-utils.ts:505-516 | group keys are distinct and every listed key has an entry |
| Referrers.GroupsPartition | packages/rpc/src/lib/analytics-utils.ts:506-516 | every visitor with events is in exactly the group of its first event's referrer key; keys no visitor has are absent |
| Referrers.GroupParsedIsFirst | packages/rpc/src/lib/analytics-utils.ts:512-514 | a group keeps the parsed referrer of its first visitor |
| Referrers.ReferrerStats | packages/rpc/src/lib/analytics-utils.ts:519-533 | the per-group loop yields the fold of group segments in key order |
| Referrers.SegmentsMeaning | packages/rpc/src/lib/analytics-utils.ts:520-533 | each entry is a known group with its parsed referrer; total is the group's step-1 visitors (> 0); completed is the group's last-step visitors, 0 ≤ completed ≤ total; the rate is `pct` of completed over total, within 0..100.00 |
| Referrers.SegmentsKeep | packages/rpc/src/lib/analytics-utils.ts:522-523 | a group appears exactly when some of its visitors reached step 1 |
| Referrers.ProcessFunnelAnalyticsByReferrer | packages/rpc/src/lib/analytics-utils.ts:477-536 | rejects exactly the invalid filters; otherwise returns the sorted referrer breakdown of the grouped rows; binds the filters |
| Referrers.ByReferrerMeaning | packages/rpc/src/lib/analytics-utils.ts:535 | the output is a permutation of the segments, sorted by total users descending, stable among equal totals; each entry counts its group's step-1 and last-step visitors and rates them with `pct` |
| Referrers.SegmentTotal | packages/rpc/src/lib/analytics-utils.ts:520-523 | a group's entry, when present, has as total exactly the group's visitors among the funnel's step-1 visitors; a group without them adds nothing |
| Referrers.SegmentsTotal | packages/rpc/src/lib/analytics-utils.ts:519-533 | over distinct keys of groups that share no visitor, the entries' totals add up to the step-1 visitors of those groups |
| Referrers.TotalUsersSort | packages/rpc/src/lib/analytics-utils.ts:535 | sorting the entries by total keeps the sum of the totals |
| Referrers.ReferrerTotalsConserved | packages/rpc/src/lib/analytics-utils.ts:505-535 | the totals of the referrer breakdown add up to the funnel's step-1 visitors: every entrant is counted in exactly one entry |
| AnalyticsTables.ColDefaults | packages/shared/src/schema/analytics-tables.ts:33-48 | without options a column is not nullable, filterable, undescribed, and aggregatable exactly when numeric |
| AnalyticsTables.ColOverrides | packages/shared/src/schema/analytics-tables.ts:43-46 | each given option overrides its default, each absent one keeps it |
| AnalyticsTables.FindTableMeaning | packages/shared/src/schema/analytics-tables.ts:232-234 | lookup finds nothing exactly when no table has the name, and otherwise the first one that has it |
| AnalyticsTables.FindColumnMeaning | packages/shared/src/schema/analytics-tables.ts:239-242 | column lookup finds nothing exactly when no column has the name, otherwise the first one |
| AnalyticsTables.ValidTableIffDefined | packages/shared/src/schema/analytics-tables.ts:232-249 | a table name is valid exactly when its definition is found, and the found table has that name |
| AnalyticsTables.ValidColumnIffDefined | packages/shared/src/schema/analytics-tables.ts:239-257 | a column is valid exactly when its definition is found; an unknown table has no valid columns |
| AnalyticsTables.FilterableColumnsMeaning | packages/shared/src/schema/analytics-tables.ts:262-265 | the filterable columns of a table, in order; none for an unknown table |
| AnalyticsTables.AggregatableColumnsMeaning | packages/shared/src/schema/analytics-tables.ts:270-273 | the aggregatable columns of a table, in order; none for an unknown table |
| AnalyticsTables.EveryTableFound | packages/shared/src/schema/analytics-tables.ts:220-249 | every listed table is found by its own name and is valid (the six names are distinct) |
| DynamicQuery.TransformFiltersMeaning | apps/dashboard/hooks/use-dynamic-query.ts:62-68 | absence, length, order and each field are kept, `operator` becoming `op`; reading back gives the filters again |
| DynamicQuery.UntransformThenTransform | apps/dashboard/hooks/use-dynamic-query.ts:62-68 | the renaming is onto: every API filter list is the renaming of one |
| DynamicQuery.BuildQueryDefaults | apps/dashboard/hooks/use-dynamic-query.ts:80-90 | a missing or zero limit becomes 100, page 1; set values are kept; granularity falls back to the date range's, then "daily" |
| DynamicQuery.BuildQueryIdempotent | apps/dashboard/hooks/use-dynamic-query.ts:80-90 | building a built query again changes nothing |
| DynamicQuery.ProcessResult | apps/dashboard/hooks/use-dynamic-query.ts:229-258 | the per-parameter loop yields the processed form of the entry |
| DynamicQuery.ProcessResults | apps/dashboard/hooks/use-dynamic-query.ts:224-260 | no results give none; otherwise one processed result per entry, in order |
| DynamicQuery.ProcessedMeaning | apps/dashboard/hooks/use-dynamic-query.ts:239-256 | without a data array: failure with the single "query" error; with one: success exactly when some data was delivered, the errors are the failed parameters in order |
| DynamicQuery.ErrorsAreTheFailures | apps/dashboard/hooks/use-dynamic-query.ts:240-250 | the errors are exactly the failed parameter results, in order, with their messages |
| DynamicQuery.CollectedMeaning | apps/dashboard/hooks/use-dynamic-query.ts:241-243 | a parameter has data exactly when some result for it delivered data, and it holds the last such data |
| DynamicQuery.SuccessIffData | apps/dashboard/hooks/use-dynamic-query.ts:241-243 | some parameter delivered exactly when the data record is non-empty |
| DynamicQuery.FailuresFewer | apps/dashboard/hooks/use-dynamic-query.ts:240-250 | there are never more errors than parameters, and fewer when one delivered |
| DynamicQuery.DedupeProfiles | apps/dashboard/hooks/use-dynamic-query.ts:369-378 | the `seen`-set filter yields the first row of every visitor, in order |
| DynamicQuery.DedupeDistinct | apps/dashboard/hooks/use-dynamic-query.ts:369-378 | the kept rows have pairwise distinct visitor ids |
| DynamicQuery.DedupeSubseq | apps/dashboard/hooks/use-dynamic-query.ts:370-377 | the kept rows are a subsequence of the input |
| DynamicQuery.DedupeIds | apps/dashboard/hooks/use-dynamic-query.ts:370-377 | every visitor of the input keeps a row, and no other appears |
| DynamicQuery.DedupeKeepsFirst | apps/dashboard/hooks/use-dynamic-query.ts:370-377 | each visitor's first row is kept |
| DynamicQuery.DedupeKeepsOnlyFirst | apps/dashboard/hooks/use-dynamic-query.ts:370-377 | every kept row is the first row of its visitor |
| DynamicQuery.DedupeSize | apps/dashboard/hooks/use-dynamic-query.ts:369-378 | one row is kept per distinct visitor, never more than the input |
| DynamicQuery.NextPageNeedsFullPage | apps/dashboard/hooks/use-dynamic-query.ts:405-413 | a next page is offered only if the server returned at least `limit` rows, and not for a full page with a repeated visitor |
| DynamicQuery.PrevPageNeedsExplicitPage | apps/dashboard/hooks/use-dynamic-query.ts:415 | with the page defaulted by `buildQuery`, a previous page exists exactly when the request asked for a page above 1 |
| Billing.IndexOf | packages/rpc/src/types/billing.ts:55-56 | `indexOf`: -1 exactly when absent, otherwise the first index holding the plan |
| Billing.HasPlanCases | packages/rpc/src/types/billing.ts:47-63 | no plan holds only FREE; an unknown current plan holds nothing; a known one holds a known plan exactly when it is listed at or after it, and every unlisted plan |
| Billing.HasPlanReflexive | packages/rpc/src/types/billing.ts:55-62 | a known plan holds itself |
| Billing.HasPlanTransitive | packages/rpc/src/types/billing.ts:55-62 | holding is transitive among named plans |
| Billing.HasPlanMonotone | packages/rpc/src/types/billing.ts:55-62 | in a hierarchy without repeats, plan i holds plan j exactly when j ≤ i |
| Billing.IsFreePlanMeaning | packages/rpc/src/types/billing.ts:75-77 | the free test ignores case; a missing plan is free and holds only FREE |
| Billing.RequireFeatureMeaning | packages/rpc/src/types/billing.ts:179-192 | throws exactly when the feature is unavailable, with FEATURE_UNAVAILABLE naming the feature and the next plan |
| Billing.RequireUsageMeaning | packages/rpc/src/types/billing.ts:204-229 | throws exactly when usage is over the limit: FEATURE_UNAVAILABLE for a `false` limit, otherwise PLAN_LIMIT_EXCEEDED with the limit, the usage and the next plan |
| Billing.DisabledLimitIsUnavailableFeature | packages/rpc/src/types/billing.ts:209-220 | for a feature the plan lacks, the over-limit error is the error `requireFeature` throws |
| Billing.LimitMessageReadsBack | packages/rpc/src/types/billing.ts:222-226 | the limit message starts "Limit of " followed by digits that read back as the limit |

## Left out

- The ClickHouse calls (`chQuery`) are I/O against an external store. The funnel, goal, referrer and series query results are inputs: rows, or `None` for a failed series query.
- buildStepQuery is not part of this model: neither the SQL text it returns nor its writes of `step_name_i`, `target_i` and `target_i_like` into `params`. The methods' `params` postcondition covers only the filter bindings.
- The SQL text of the filter clause is modelled as strings, but its meaning in ClickHouse is not.
- `getTotalWebsiteUsers` is a query; the goal path takes the site's user count as a parameter.
- `new URL(...).hostname` and the `referrers` provider table are foreign code and data. They are parameters `hostOf` (`None` when the URL does not parse) and `providers`.
- Durations, times and samples are integers (the query returns whole seconds and epoch times). Floating-point rounding of non-integers is modelled only for the series' `avg_time`, via `real`. The fractional `seconds % 60` in `formatDuration` is not modelled.
- FunnelStats.ProcessGoalAnalytics: requires at least one step when the filters are valid. The source reads `steps[0].name` and throws a TypeError on an empty list; that crash is not modelled.
- The in-place `events.sort` is modelled on values. Aliasing between the timelines sorted by `calculateStepCounts` and by the timing loop is not modelled; sorting is idempotent, so the result is the same.
- FunnelStats.ProcessFunnelAnalytics: the `avg_completion_time_formatted` label is the corrected `Metrics.FormatDuration`, not `formatDuration` as written (analytics-utils.ts:420 calls the code of lines 66-77). The two differ exactly when the average is at least an hour with a remainder of 59 min 30 s or more: 7170 s is "2h" here and "1h 60m" in the code. `FunnelStats.FunnelLabel` states this for `FunnelStats.Funnel`, which both the method and the by-value model use.
- FilterClause.Escape: how ClickHouse's `LIKE` reads the bound pattern is not modelled. As in the code, a backslash in a value is not escaped, so `LIKE` reads it as an escape of the next character, and a value containing a backslash is not matched literally. `FilterClause.Unescape` is only the inverse of `Escape`, not the `LIKE` reading.
- FilterClause.Escape: under `equals` and `not_equals` the code also binds the escaped string and compares it with `=` and `!=`, so a value containing `%` or `_` is compared with its escaped form. The model binds exactly that string; what the comparison then matches is not modelled.
- `formatDuration`'s `!Number.isFinite` branch has no counterpart: integers are always finite.
- AnalyticsTables: the six table constants are written out in full. Facts about single columns of the 47-column events table, such as a given column being filterable, are not proved: indexing a literal that large is beyond the verifier's budget. The lemmas are stated for any table.
- Billing: `PLAN_HIERARCHY`, `isFeatureAvailable`, `getPlanFeatureLimit`, `isWithinLimit` and `getNextPlanForFeature` belong to a shared features module that is not part of this model. They are parameters. `FeatureLimit` is modelled as `false`, a count or unlimited. `PLAN_IDS.FREE` is taken to be "free".
- Billing: `canAccessFeature`, `canAccessAiCapability`, `getFeatureLimit`, `isUsageWithinLimit`, `getUsageRemaining` and `getUserCapabilities` only forward to that features module and are not modelled.
- Billing: `requireAiCapability` chooses and throws FEATURE_UNAVAILABLE for an AI capability, naming the minimum plan for that capability when there is one. It is outside the modelled plan checks and is not modelled.
- DynamicQuery: the React Query wiring (`useQuery`, `useMemo`, fetch, abort signals and retries), `getUserTimezone` (a parameter) and the response's opaque row contents (rows are `seq<string>`, profiles keep only `visitor_id`) are left out.

## Findings

| source | as written | input that shows it | evidently intended | confidence | as-written member | corrected member |
|---|---|---|---|---|---|---|
| packages/rpc/src/lib/analytics-utils.ts:74-76 | the hour label rounds the remainder's minutes without carrying, so they can reach 60 | 7170 seconds (1 h 59 min 30 s) is labelled "1h 60m" | minutes carried into the hours: "2h" | not executed | Metrics.SixtyMinutesLabel | Metrics.FormatDurationReadsBack |
