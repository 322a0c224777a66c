/** The post-query logic of `processFunnelAnalytics` and `processGoalAnalytics`
    in `packages/rpc/src/lib/analytics-utils.ts`: the per-step statistics,
    the biggest-dropoff reduction, the daily time series and the assembled
    result. The rows of the ClickHouse queries are inputs. */
module FunnelStats {
  import opened Common
  import opened Text
  import Metrics
  import FilterClause
  import opened VisitorEvents
  import opened StateMachine

  /** A funnel step as configured; `kind` is the source's `type`. */
  datatype AnalyticsStep = AnalyticsStep(step_number: int, name: string, kind: string, target: string)

  datatype StepAnalytics = StepAnalytics(step_number: int, step_name: string, users: int, total_users: int,
                                         conversion_rate: int, dropoffs: int, dropoff_rate: int,
                                         avg_time_to_complete: int)

  /** A row of the daily query; a missing column is `None`. */
  datatype SeriesRow = SeriesRow(date: string, users: Option<int>, conversions: Option<int>, avg_time: Option<real>)

  datatype SeriesPoint = SeriesPoint(date: string, users: int, conversions: int, conversion_rate: int,
                                     dropoffs: int, avg_time: int)

  datatype FunnelAnalytics = FunnelAnalytics(overall_conversion_rate: int, total_users_entered: int,
                                             total_users_completed: int, avg_completion_time: int,
                                             avg_completion_time_formatted: string,
                                             biggest_dropoff_step: int, biggest_dropoff_rate: int,
                                             steps_analytics: seq<StepAnalytics>, time_series: seq<SeriesPoint>)

  /** The goal result, which has no dropoff or time-series fields. */
  datatype ProcessedAnalytics = ProcessedAnalytics(overall_conversion_rate: int, total_users_entered: int,
                                                   total_users_completed: int, avg_completion_time: int,
                                                   avg_completion_time_formatted: string,
                                                   steps_analytics: seq<StepAnalytics>)

  /** The error every entry point raises when a filter is rejected. */
  function InvalidFilters(errors: seq<string>): ApiError
  {
    ApiError("BAD_REQUEST", "Invalid filters: " + Join(errors, ", "))
  }

  // ---------------------------------------------------------------------
  // Step statistics

  /** The statistics of step `i + 1`, from the step counts and step timings. */
  function StepAt(steps: seq<AnalyticsStep>, counts: map<int, set<string>>, timings: map<int, seq<int>>, i: nat): StepAnalytics
    requires i < |steps|
  {
    var users := Size(counts, i + 1);
    var prevUsers := if i > 0 then Size(counts, i) else users;
    var dropoffs := if i > 0 then prevUsers - users else 0;
    StepAnalytics(i + 1, steps[i].name, users, Size(counts, 1),
                  if i > 0 then Metrics.Pct(users, prevUsers) else 10000,
                  dropoffs,
                  if i > 0 then Metrics.Pct(dropoffs, prevUsers) else 0,
                  Metrics.SafeAvg(GetSeq(timings, i + 1)))
  }

  /** `steps.map(...)`: one statistics record per configured step. */
  function StepStats(steps: seq<AnalyticsStep>, counts: map<int, set<string>>, timings: map<int, seq<int>>): (r: seq<StepAnalytics>)
    ensures |r| == |steps|
    ensures forall i :: 0 <= i < |r| ==> r[i].step_number == i + 1 && r[i].step_name == steps[i].name
  {
    seq(|steps|, i requires 0 <= i < |steps| => StepAt(steps, counts, timings, i))
  }

  /** Steps further down the funnel are reached by fewer visitors. */
  lemma ReachedAntitone(tl: Timelines, filter: Option<set<string>>, j: int, k: int)
    requires 1 <= j <= k
    ensures ReachedSet(tl, filter, k) <= ReachedSet(tl, filter, j)
    ensures |ReachedSet(tl, filter, k)| <= |ReachedSet(tl, filter, j)|
  {
    SubsetCard(ReachedSet(tl, filter, k), ReachedSet(tl, filter, j));
  }

  /** The statistics of a funnel's step i + 1 count the visitors reaching it,
      out of the visitors entering the funnel. */
  lemma StepUsers(steps: seq<AnalyticsStep>, tl: Timelines, i: nat)
    requires i < |steps|
    ensures var s := StepStats(steps, CountMap(tl, tl.order, None), TimingMap(tl, tl.order))[i];
      s.users == |ReachedSet(tl, None, i + 1)| && s.total_users == |ReachedSet(tl, None, 1)| &&
      s.users <= s.total_users
  {
    CountMapMeaning(tl, tl.order, None, i + 1);
    CountMapMeaning(tl, tl.order, None, 1);
    ReachedAntitone(tl, None, 1, i + 1);
  }

  /** The first step converts everyone who entered and loses nobody. */
  lemma FirstStepStats(steps: seq<AnalyticsStep>, tl: Timelines)
    requires |steps| > 0
    ensures var s := StepStats(steps, CountMap(tl, tl.order, None), TimingMap(tl, tl.order))[0];
      s.conversion_rate == 10000 && s.dropoffs == 0 && s.dropoff_rate == 0 &&
      s.avg_time_to_complete == 0 && s.users == s.total_users
  {
    TimingMapMeaning(tl, tl.order, 1);
    NoFirstStepTimings(tl, tl.order);
  }

  /** Step 1 is where the clock starts, so it has no step timings. */
  lemma {:induction false} NoFirstStepTimings(tl: Timelines, vs: seq<string>)
    ensures StepTimings(tl, vs, 1) == []
  {
    if vs != [] {
      NoFirstStepTimings(tl, vs[..|vs| - 1]);
    }
  }

  /** At every later step, the visitors lost and the visitors kept make up the
      previous step's visitors, and both rates are percentages of it. */
  lemma LaterStepStats(steps: seq<AnalyticsStep>, tl: Timelines, i: nat)
    requires 0 < i < |steps|
    ensures var r := StepStats(steps, CountMap(tl, tl.order, None), TimingMap(tl, tl.order));
      var s, prev := r[i], r[i - 1];
      s.dropoffs + s.users == prev.users && s.dropoffs >= 0 &&
      s.conversion_rate == Metrics.Pct(s.users, prev.users) &&
      s.dropoff_rate == Metrics.Pct(s.dropoffs, prev.users) &&
      0 <= s.conversion_rate <= 10000 && 0 <= s.dropoff_rate <= 10000
  {
    var r := StepStats(steps, CountMap(tl, tl.order, None), TimingMap(tl, tl.order));
    CountMapMeaning(tl, tl.order, None, i + 1);
    CountMapMeaning(tl, tl.order, None, i);
    ReachedAntitone(tl, None, i, i + 1);
    var users, prevUsers := r[i].users, r[i - 1].users;
    assert prevUsers == Size(CountMap(tl, tl.order, None), i);
    if prevUsers > 0 {
      Metrics.PctOfPart(users, prevUsers);
      Metrics.PctOfPart(prevUsers - users, prevUsers);
    }
  }

  /** The conversion and dropoff rates of a step add up to 100.00, up to
      the rounding of each (100.01 when both round up). */
  lemma RatesComplement(users: int, prevUsers: int)
    requires 0 <= users <= prevUsers && prevUsers > 0
    ensures 10000 <= Metrics.Pct(users, prevUsers) + Metrics.Pct(prevUsers - users, prevUsers) <= 10001
  {
    var r1, r2 := Metrics.Pct(users, prevUsers), Metrics.Pct(prevUsers - users, prevUsers);
    var p, u := prevUsers, users;
    assert 2 * p * r1 <= 20000 * u + p < 2 * p * r1 + 2 * p;
    assert 2 * p * r2 <= 20000 * (p - u) + p < 2 * p * r2 + 2 * p;
    assert 20000 * (p - u) == 20000 * p - 20000 * u;
    assert 2 * p * (r1 + r2) == 2 * p * r1 + 2 * p * r2;
    assert 2 * p * (r1 + r2) <= 20000 * p + 2 * p;
    assert 2 * p * 10002 == 20000 * p + 4 * p;
    Metrics.LessByFactor(2 * p, r1 + r2, 10002);
    assert 2 * p * 9999 == 20000 * p - 2 * p;
    Metrics.LessByFactor(2 * p, 9999, r1 + r2);
  }

  /** The average time of step k is the rounded mean of its samples, which are
      never negative. */
  lemma StepAvgTime(steps: seq<AnalyticsStep>, tl: Timelines, i: nat)
    requires i < |steps|
    ensures var s := StepStats(steps, CountMap(tl, tl.order, None), TimingMap(tl, tl.order))[i];
      s.avg_time_to_complete == Metrics.SafeAvg(StepTimings(tl, tl.order, i + 1)) &&
      s.avg_time_to_complete >= 0
  {
    TimingMapMeaning(tl, tl.order, i + 1);
    StepTimingsNonNegative(tl, tl.order, i + 1);
    Metrics.SafeAvgNonNegative(StepTimings(tl, tl.order, i + 1));
  }

  // ---------------------------------------------------------------------
  // Biggest dropoff

  /** `s.reduce((max, x) => x.dropoff_rate > max.dropoff_rate ? x : max, init)`. */
  function MaxByRate(init: StepAnalytics, s: seq<StepAnalytics>): StepAnalytics
  {
    if s == [] then init
    else
      var m := MaxByRate(init, s[..|s| - 1]);
      var x := s[|s| - 1];
      if x.dropoff_rate > m.dropoff_rate then x else m
  }

  /** `stepsAnalytics.slice(1).reduce(..., stepsAnalytics[1] || stepsAnalytics[0])`;
      `None` for a funnel without steps. */
  function BiggestDropoff(stats: seq<StepAnalytics>): Option<StepAnalytics>
  {
    if |stats| == 0 then None
    else Some(MaxByRate(if |stats| > 1 then stats[1] else stats[0], stats[1..]))
  }

  /** `s[b]` has the highest dropoff rate in `s`, and no earlier element has it. */
  ghost predicate FirstMaximum(s: seq<StepAnalytics>, b: int)
  {
    && 0 <= b < |s|
    && (forall j :: 0 <= j < |s| ==> s[j].dropoff_rate <= s[b].dropoff_rate)
    && (forall j :: 0 <= j < b ==> s[j].dropoff_rate < s[b].dropoff_rate)
  }

  /** Folding from the first element, the reduction returns the first element
      of maximal rate. */
  lemma {:induction false} MaxByRateIsFirstMaximum(s: seq<StepAnalytics>)
    requires |s| > 0
    ensures exists b :: FirstMaximum(s, b) && MaxByRate(s[0], s) == s[b]
  {
    var init, x := s[..|s| - 1], s[|s| - 1];
    if |init| == 0 {
      assert MaxByRate(s[0], s) == s[0];
      assert FirstMaximum(s, 0);
    } else {
      MaxByRateIsFirstMaximum(init);
      assert init[0] == s[0];
      var b :| FirstMaximum(init, b) && MaxByRate(init[0], init) == init[b];
      FirstMaximumExtend(s, b);
      if x.dropoff_rate > init[b].dropoff_rate {
        assert MaxByRate(s[0], s) == s[|s| - 1];
      } else {
        assert MaxByRate(s[0], s) == s[b];
      }
    }
  }

  /** One more element either beats the first maximum or leaves it in place. */
  lemma FirstMaximumExtend(s: seq<StepAnalytics>, b: int)
    requires |s| > 0 && FirstMaximum(s[..|s| - 1], b)
    ensures s[b] == s[..|s| - 1][b]
    ensures FirstMaximum(s, if s[|s| - 1].dropoff_rate > s[b].dropoff_rate then |s| - 1 else b)
  {
    var init := s[..|s| - 1];
    assert forall j :: 0 <= j < |init| ==> init[j] == s[j];
  }

  /** With two steps or more, the biggest dropoff is the step at index 1 or later
      with the highest dropoff rate, the earliest of them on a tie. */
  lemma BiggestDropoffIsFirstMaximum(stats: seq<StepAnalytics>)
    requires |stats| >= 2
    ensures exists b :: (1 <= b < |stats| && BiggestDropoff(stats) == Some(stats[b]) &&
      (forall j :: 1 <= j < |stats| ==> stats[j].dropoff_rate <= stats[b].dropoff_rate) &&
      (forall j :: 1 <= j < b ==> stats[j].dropoff_rate < stats[b].dropoff_rate))
  {
    var s := stats[1..];
    MaxByRateIsFirstMaximum(s);
    var b :| FirstMaximum(s, b) && MaxByRate(s[0], s) == s[b];
    assert BiggestDropoff(stats) == Some(stats[b + 1]);
    forall j | 1 <= j < |stats|
      ensures stats[j].dropoff_rate <= stats[b + 1].dropoff_rate
      ensures j < b + 1 ==> stats[j].dropoff_rate < stats[b + 1].dropoff_rate
    {
      assert stats[j] == s[j - 1];
    }
  }

  /** A one-step funnel's biggest dropoff is its only step. */
  lemma BiggestDropoffOfOneStep(stats: seq<StepAnalytics>)
    requires |stats| == 1
    ensures BiggestDropoff(stats) == Some(stats[0])
  {
    assert stats[1..] == [];
  }

  // ---------------------------------------------------------------------
  // Time series

  /** `x || 0` on a number column. */
  function OrZero(x: Option<int>): int
  {
    if x.Some? then x.value else 0
  }

  /** `Math.round(x)`: the nearest integer, halves rounded up. */
  function Round(x: real): (r: int)
    ensures x - 0.5 < r as real <= x + 0.5
  {
    (x + 0.5).Floor
  }

  function Point(row: SeriesRow): SeriesPoint
  {
    var users, conversions := OrZero(row.users), OrZero(row.conversions);
    SeriesPoint(row.date, users, conversions, Metrics.Pct(conversions, users), users - conversions,
                Round(if row.avg_time.Some? then row.avg_time.value else 0.0))
  }

  /** `tsResults.map(...)`, or `[]` when the daily query failed (`None`). */
  function TimeSeries(rows: Option<seq<SeriesRow>>): (r: seq<SeriesPoint>)
    ensures rows.None? ==> r == []
    ensures rows.Some? ==> |r| == |rows.value|
  {
    if rows.None? then []
    else seq(|rows.value|, i requires 0 <= i < |rows.value| => Point(rows.value[i]))
  }

  /** Every point keeps its day, splits its visitors into conversions and
      dropoffs and rates the conversions against the day's visitors; a day
      with no visitors has a zero rate. */
  lemma TimeSeriesPoints(rows: seq<SeriesRow>, i: int)
    requires 0 <= i < |rows|
    ensures var p := TimeSeries(Some(rows))[i];
      p.date == rows[i].date &&
      p.users == OrZero(rows[i].users) && p.conversions == OrZero(rows[i].conversions) &&
      p.dropoffs + p.conversions == p.users &&
      p.conversion_rate == Metrics.Pct(p.conversions, p.users) &&
      (p.users <= 0 ==> p.conversion_rate == 0) &&
      (0 <= p.conversions <= p.users ==> 0 <= p.conversion_rate <= 10000 && p.dropoffs >= 0) &&
      (rows[i].avg_time.None? ==> p.avg_time == 0) &&
      (rows[i].avg_time.Some? ==> p.avg_time == Round(rows[i].avg_time.value))
  {
    var p := TimeSeries(Some(rows))[i];
    if 0 <= p.conversions <= p.users && p.users > 0 {
      Metrics.PctOfPart(p.conversions, p.users);
    }
  }

  // ---------------------------------------------------------------------
  // The assembled result

  /** The result `processFunnelAnalytics` builds from the grouped timelines
      and the daily rows. */
  function Funnel(steps: seq<AnalyticsStep>, tl: Timelines, series: Option<seq<SeriesRow>>): FunnelAnalytics
  {
    var counts := CountMap(tl, tl.order, None);
    var stats := StepStats(steps, counts, TimingMap(tl, tl.order));
    var avg := Metrics.SafeAvg(CompletionTimes(tl, tl.order, |steps|));
    var totalUsers := Size(counts, 1);
    var completed := if |stats| > 0 then stats[|stats| - 1].users else 0;
    var biggest := BiggestDropoff(stats);
    FunnelAnalytics(Metrics.Pct(completed, totalUsers), totalUsers, completed, avg, Metrics.FormatDuration(avg),
                    if biggest.Some? && biggest.value.step_number != 0 then biggest.value.step_number else 1,
                    if biggest.Some? then biggest.value.dropoff_rate else 0,
                    stats, TimeSeries(series))
  }

  method ProcessFunnelAnalytics(steps: seq<AnalyticsStep>, filters: seq<FilterClause.Filter>,
                                params: FilterClause.Params, rows: seq<Row>, series: Option<seq<SeriesRow>>)
    returns (r: Result<FunnelAnalytics, ApiError>)
    modifies params
    ensures r.Failure? <==> FilterClause.Errors(filters) != []
    ensures r.Failure? ==> r.error == InvalidFilters(FilterClause.Errors(filters))
    ensures r.Success? ==> r.value == Funnel(steps, Grouped(rows), series)
    ensures params.values == FilterClause.Bind(old(params.values), filters, "f")
  {
    var conditions, errors := FilterClause.BuildFilterConditions(filters, "f", params);
    if |errors| > 0 {
      return Failure(InvalidFilters(errors));
    }
    var visitorEvents := ProcessVisitorEvents(rows);
    GroupedWellFormed(rows);
    var stepCounts := CalculateStepCounts(visitorEvents, None);
    var totalSteps := |steps|;
    var stepTimings, completionTimes := CollectTimings(visitorEvents, totalSteps);
    var avgCompletionTime := Metrics.SafeAvg(completionTimes);
    var totalUsers := Size(stepCounts, 1);
    var stepsAnalytics := StepStats(steps, stepCounts, stepTimings);
    var lastUsers := if |stepsAnalytics| > 0 then stepsAnalytics[|stepsAnalytics| - 1].users else 0;
    var biggestDropoff := BiggestDropoff(stepsAnalytics);
    r := Success(FunnelAnalytics(
      Metrics.Pct(lastUsers, totalUsers), totalUsers, lastUsers, avgCompletionTime,
      Metrics.FormatDuration(avgCompletionTime),
      if biggestDropoff.Some? && biggestDropoff.value.step_number != 0 then biggestDropoff.value.step_number else 1,
      if biggestDropoff.Some? then biggestDropoff.value.dropoff_rate else 0,
      stepsAnalytics, TimeSeries(series)));
  }

  /** The headline numbers: visitors entering are those reaching step 1,
      visitors completing are those reaching the last step, no more than
      entered, and the overall rate is the percentage of entrants who
      completed. */
  lemma FunnelTotals(steps: seq<AnalyticsStep>, tl: Timelines, series: Option<seq<SeriesRow>>)
    ensures var f := Funnel(steps, tl, series);
      f.total_users_entered == |ReachedSet(tl, None, 1)| &&
      f.total_users_completed == (if |steps| > 0 then |ReachedSet(tl, None, |steps|)| else 0) &&
      0 <= f.total_users_completed <= f.total_users_entered &&
      f.overall_conversion_rate == Metrics.Pct(f.total_users_completed, f.total_users_entered) &&
      0 <= f.overall_conversion_rate <= 10000 &&
      |f.steps_analytics| == |steps| && f.time_series == TimeSeries(series)
  {
    var f := Funnel(steps, tl, series);
    CountMapMeaning(tl, tl.order, None, 1);
    if |steps| > 0 {
      StepUsers(steps, tl, |steps| - 1);
    }
    if f.total_users_entered > 0 {
      Metrics.PctOfPart(f.total_users_completed, f.total_users_entered);
    }
  }

  /** The average completion time is the rounded mean of the first-to-last-step
      times, one per visitor completing the funnel, and is never negative. */
  lemma FunnelCompletionTime(steps: seq<AnalyticsStep>, tl: Timelines, series: Option<seq<SeriesRow>>)
    requires WellFormed(tl) && |steps| > 0
    ensures var f := Funnel(steps, tl, series);
      f.avg_completion_time == Metrics.SafeAvg(CompletionTimes(tl, tl.order, |steps|)) &&
      |CompletionTimes(tl, tl.order, |steps|)| == f.total_users_completed &&
      f.avg_completion_time >= 0
  {
    OneSamplePerVisitor(tl, tl.order, |steps|);
    FunnelTotals(steps, tl, series);
    CompletionTimesNonNegative(tl, tl.order, |steps|);
    Metrics.SafeAvgNonNegative(CompletionTimes(tl, tl.order, |steps|));
  }

  /** The label uses the carried hour and minutes. It is the label the code
      as written produces except in the last half minute of an hour, where
      the code shows 60 minutes instead: an average of 7170 s is "2h" here
      and "1h 60m" there. */
  lemma FunnelLabel(steps: seq<AnalyticsStep>, tl: Timelines, series: Option<seq<SeriesRow>>)
    ensures var f := Funnel(steps, tl, series);
      var avg := f.avg_completion_time;
      f.avg_completion_time_formatted == Metrics.FormatDuration(avg) &&
      ((avg < 3600 || avg % 3600 < 3570) <==> f.avg_completion_time_formatted == Metrics.FormatDurationAsWritten(avg))
  {
    var avg := Funnel(steps, tl, series).avg_completion_time;
    if avg < 3600 || avg % 3600 < 3570 {
      Metrics.FormatDurationAgrees(avg);
    } else {
      Metrics.CarriedLabelDiffers(avg);
    }
  }

  /** The reported biggest dropoff: the first step past step 1 with the highest
      dropoff rate, or step 1 with rate 0 for a funnel of at most one step. */
  lemma FunnelBiggestDropoff(steps: seq<AnalyticsStep>, tl: Timelines, series: Option<seq<SeriesRow>>)
    ensures var f := Funnel(steps, tl, series);
      var stats := f.steps_analytics;
      (|steps| <= 1 ==> f.biggest_dropoff_step == 1 && f.biggest_dropoff_rate == 0) &&
      (|steps| >= 2 ==>
        2 <= f.biggest_dropoff_step <= |steps| &&
        f.biggest_dropoff_rate == stats[f.biggest_dropoff_step - 1].dropoff_rate &&
        (forall j :: 1 <= j < |steps| ==> stats[j].dropoff_rate <= f.biggest_dropoff_rate) &&
        (forall j :: 1 <= j < f.biggest_dropoff_step - 1 ==> stats[j].dropoff_rate < f.biggest_dropoff_rate))
  {
    var stats := Funnel(steps, tl, series).steps_analytics;
    if |steps| == 1 {
      BiggestDropoffOfOneStep(stats);
    }
    if |steps| >= 2 {
      BiggestDropoffIsFirstMaximum(stats);
    }
  }

  // ---------------------------------------------------------------------
  // Goal analytics

  /** The visitors of the goal query that reached its one step. */
  function GoalCompletions(tl: Timelines): nat
  {
    Size(CountMap(tl, tl.order, None), 1)
  }

  function Goal(step: AnalyticsStep, tl: Timelines, totalWebsiteUsers: int): ProcessedAnalytics
  {
    var completions := GoalCompletions(tl);
    var rate := Metrics.Pct(completions, totalWebsiteUsers);
    ProcessedAnalytics(rate, totalWebsiteUsers, completions, 0, Metrics.Dash,
                       [StepAnalytics(1, step.name, completions, totalWebsiteUsers, rate, 0, 0, 0)])
  }

  /** `processGoalAnalytics`: reading `steps[0].name` of an empty step list
      throws, so an empty list is excluded unless a filter error is raised first. */
  method ProcessGoalAnalytics(steps: seq<AnalyticsStep>, filters: seq<FilterClause.Filter>,
                              params: FilterClause.Params, rows: seq<Row>, totalWebsiteUsers: int)
    returns (r: Result<ProcessedAnalytics, ApiError>)
    requires |steps| > 0 || FilterClause.Errors(filters) != []
    modifies params
    ensures r.Failure? <==> FilterClause.Errors(filters) != []
    ensures r.Failure? ==> r.error == InvalidFilters(FilterClause.Errors(filters))
    ensures r.Success? ==> r.value == Goal(steps[0], Grouped(rows), totalWebsiteUsers)
    ensures params.values == FilterClause.Bind(old(params.values), filters, "f")
  {
    var conditions, errors := FilterClause.BuildFilterConditions(filters, "f", params);
    if |errors| > 0 {
      return Failure(InvalidFilters(errors));
    }
    var step := steps[0];
    var visitorEvents := ProcessVisitorEvents(rows);
    GroupedWellFormed(rows);
    var counts := CalculateStepCounts(visitorEvents, None);
    var completions := Size(counts, 1);
    var rate := Metrics.Pct(completions, totalWebsiteUsers);
    r := Success(ProcessedAnalytics(rate, totalWebsiteUsers, completions, 0, Metrics.Dash,
                                    [StepAnalytics(1, step.name, completions, totalWebsiteUsers, rate, 0, 0, 0)]));
  }

  /** The goal's completions are the visitors with an event of step 1; the
      entrants are the caller's visitor total, the rate is the percentage of
      them who completed (50 of 1000 is 5.00) and is 0 without visitors, and
      the single step entry repeats those figures with no dropoffs and no
      timing. */
  lemma GoalMeaning(step: AnalyticsStep, tl: Timelines, totalWebsiteUsers: int)
    ensures var g := Goal(step, tl, totalWebsiteUsers);
      g.total_users_completed == |set v | v in tl.order && v in tl.events && HasStep(tl.events[v], 1)| &&
      g.total_users_entered == totalWebsiteUsers &&
      g.overall_conversion_rate == Metrics.Pct(g.total_users_completed, totalWebsiteUsers) &&
      (totalWebsiteUsers == 1000 && g.total_users_completed == 50 ==> g.overall_conversion_rate == 500) &&
      (totalWebsiteUsers <= 0 ==> g.overall_conversion_rate == 0) &&
      (g.total_users_completed <= totalWebsiteUsers ==> 0 <= g.overall_conversion_rate <= 10000) &&
      g.avg_completion_time == 0 && g.avg_completion_time_formatted == Metrics.Dash &&
      g.steps_analytics == [StepAnalytics(1, step.name, g.total_users_completed, totalWebsiteUsers,
                                          g.overall_conversion_rate, 0, 0, 0)]
  {
    CountMapMeaning(tl, tl.order, None, 1);
    var reached := ReachedSet(tl, None, 1);
    var withStep := set v | v in tl.order && v in tl.events && HasStep(tl.events[v], 1);
    forall v | v in tl.order && v in tl.events
      ensures v in reached <==> v in withStep
    {
      ReachesFirstStep(tl.events[v]);
    }
    assert reached == withStep;
    var g := Goal(step, tl, totalWebsiteUsers);
    if totalWebsiteUsers > 0 && g.total_users_completed <= totalWebsiteUsers {
      Metrics.PctOfPart(g.total_users_completed, totalWebsiteUsers);
    }
  }
}
