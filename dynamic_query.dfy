/** The pure helpers of `apps/dashboard/hooks/use-dynamic-query.ts`: the
    filter renaming and the defaults of each query sent to the query API,
    the fold of a batch response into per-query results, the de-duplication
    of profile rows and the pagination flags. */
module DynamicQuery {
  import opened Common
  import Seqs

  // ---------------------------------------------------------------------
  // Filters

  /** A filter value as the client sends it; it is passed along untouched. */
  datatype FilterValue = Text(s: string) | Number(n: int) | List(items: seq<string>)

  /** A `DynamicQueryFilter`, as the dashboard builds it. */
  datatype QueryFilter = QueryFilter(field: string, operator: string, value: FilterValue)

  /** The same filter as the query API reads it. */
  datatype ApiFilter = ApiFilter(field: string, op: string, value: FilterValue)

  function ToApi(f: QueryFilter): ApiFilter
  {
    ApiFilter(f.field, f.operator, f.value)
  }

  function FromApi(f: ApiFilter): QueryFilter
  {
    QueryFilter(f.field, f.op, f.value)
  }

  /** `filters?.map(({ field, operator, value }) => ({ field, op: operator, value }))`. */
  function TransformFilters(filters: Option<seq<QueryFilter>>): (r: Option<seq<ApiFilter>>)
  {
    if filters.None? then None
    else Some(seq(|filters.value|, i requires 0 <= i < |filters.value| => ToApi(filters.value[i])))
  }

  /** The renaming read backwards. */
  function UntransformFilters(filters: Option<seq<ApiFilter>>): Option<seq<QueryFilter>>
  {
    if filters.None? then None
    else Some(seq(|filters.value|, i requires 0 <= i < |filters.value| => FromApi(filters.value[i])))
  }

  /** The renaming keeps absence, length, order and every field, and loses
      nothing: reading it backwards gives the filters back. */
  lemma TransformFiltersMeaning(filters: Option<seq<QueryFilter>>)
    ensures var r := TransformFilters(filters);
      (filters.None? <==> r.None?) &&
      (filters.Some? ==> (|r.value| == |filters.value| &&
        forall i :: 0 <= i < |filters.value| ==>
          r.value[i].field == filters.value[i].field && r.value[i].op == filters.value[i].operator &&
          r.value[i].value == filters.value[i].value))
    ensures UntransformFilters(TransformFilters(filters)) == filters
  {
    if filters.Some? {
      var there := TransformFilters(filters).value;
      var back := UntransformFilters(TransformFilters(filters)).value;
      assert |back| == |filters.value|;
      forall i | 0 <= i < |back| ensures back[i] == filters.value[i] {
        assert back[i] == FromApi(there[i]) && there[i] == ToApi(filters.value[i]);
      }
      assert back == filters.value;
    }
  }

  lemma UntransformThenTransform(filters: Option<seq<ApiFilter>>)
    ensures TransformFilters(UntransformFilters(filters)) == filters
  {
    if filters.Some? {
      var there := UntransformFilters(filters).value;
      var back := TransformFilters(UntransformFilters(filters)).value;
      assert |back| == |filters.value|;
      forall i | 0 <= i < |back| ensures back[i] == filters.value[i] {
        assert back[i] == ToApi(there[i]) && there[i] == FromApi(filters.value[i]);
      }
      assert back == filters.value;
    }
  }

  // ---------------------------------------------------------------------
  // Query defaults

  datatype DateRange = DateRange(start_date: string, end_date: string, granularity: Option<string>)

  /** A `DynamicQueryRequest`; absent fields are `None`. */
  datatype QueryRequest = QueryRequest(id: string, parameters: seq<string>, limit: Option<int>, page: Option<int>,
                                       filters: Option<seq<QueryFilter>>, granularity: Option<string>,
                                       groupBy: Option<seq<string>>)

  /** The body `buildQuery` sends for one request. */
  datatype BuiltQuery = BuiltQuery(id: string, parameters: seq<string>, startDate: string, endDate: string,
                                   timeZone: string, limit: int, page: int, filters: Option<seq<ApiFilter>>,
                                   granularity: string, groupBy: Option<seq<string>>)

  /** `x || d` on a number: undefined and 0 are falsy. */
  function OrNumber(x: Option<int>, d: int): int
  {
    if x.Some? && x.value != 0 then x.value else d
  }

  /** `x || d` on a string: undefined and "" are falsy. */
  function OrText(x: Option<string>, d: string): string
  {
    if x.Some? && x.value != "" then x.value else d
  }

  /** `buildQuery`, with the user's time zone as a parameter. */
  function BuildQuery(query: QueryRequest, dateRange: DateRange, timeZone: string): BuiltQuery
  {
    BuiltQuery(query.id, query.parameters, dateRange.start_date, dateRange.end_date, timeZone,
               OrNumber(query.limit, 100), OrNumber(query.page, 1), TransformFilters(query.filters),
               OrText(query.granularity, OrText(dateRange.granularity, "daily")), query.groupBy)
  }

  /** The request a built query would be read back as. */
  function AsRequest(b: BuiltQuery): QueryRequest
  {
    QueryRequest(b.id, b.parameters, Some(b.limit), Some(b.page), UntransformFilters(b.filters),
                 Some(b.granularity), b.groupBy)
  }

  /** A missing or zero limit becomes 100 and a missing or zero page 1; the
      granularity falls back to the date range's, then to "daily"; what the
      request sets is kept. */
  lemma BuildQueryDefaults(query: QueryRequest, dateRange: DateRange, timeZone: string)
    ensures var b := BuildQuery(query, dateRange, timeZone);
      b.limit != 0 && b.page != 0 && b.granularity != "" &&
      (b.limit == 100 <== query.limit.None? || query.limit == Some(0)) &&
      (b.page == 1 <== query.page.None? || query.page == Some(0)) &&
      (query.limit.Some? && query.limit.value != 0 ==> b.limit == query.limit.value) &&
      (query.page.Some? && query.page.value != 0 ==> b.page == query.page.value) &&
      (query.granularity.Some? && query.granularity.value != "" ==> b.granularity == query.granularity.value) &&
      ((query.granularity.None? || query.granularity == Some("")) ==>
         b.granularity == OrText(dateRange.granularity, "daily"))
  {
  }

  /** Building is idempotent: a built query, sent again, is built unchanged. */
  lemma BuildQueryIdempotent(query: QueryRequest, dateRange: DateRange, timeZone: string)
    ensures var b := BuildQuery(query, dateRange, timeZone);
      BuildQuery(AsRequest(b), dateRange, timeZone) == b
  {
    TransformFiltersMeaning(query.filters);
    UntransformThenTransform(TransformFilters(query.filters));
  }

  // ---------------------------------------------------------------------
  // Batch results

  /** One parameter of a batch entry; `data` is `None` when absent. */
  datatype ParamResult = ParamResult(parameter: string, success: bool, data: Option<seq<string>>, error: Option<string>)

  /** One entry of a batch response; `data` is `None` when it is not an array. */
  datatype BatchResult = BatchResult(queryId: string, data: Option<seq<ParamResult>>, meta: string)

  datatype ParamError = ParamError(parameter: string, error: Option<string>)

  datatype ProcessedResult = ProcessedResult(queryId: string, success: bool, data: map<string, seq<string>>,
                                             errors: seq<ParamError>, meta: string, rawResult: BatchResult)

  predicate Delivered(p: ParamResult)
  {
    p.success && p.data.Some?
  }

  predicate Failed(p: ParamResult)
  {
    !Delivered(p)
  }

  function ErrorOf(p: ParamResult): ParamError
  {
    ParamError(p.parameter, p.error)
  }

  /** The data collected from the parameter results `ps`: later ones overwrite earlier ones. */
  function Collected(ps: seq<ParamResult>): map<string, seq<string>>
  {
    if ps == [] then map[]
    else
      var m, p := Collected(ps[..|ps| - 1]), ps[|ps| - 1];
      if Delivered(p) then m[p.parameter := p.data.value] else m
  }

  function ErrorsOf(ps: seq<ParamResult>): seq<ParamError>
  {
    if ps == [] then []
    else ErrorsOf(ps[..|ps| - 1]) + (if Delivered(ps[|ps| - 1]) then [] else [ErrorOf(ps[|ps| - 1])])
  }

  const NoDataError: ParamError := ParamError("query", Some("No data array found in response"))

  /** The processed form of one batch entry. */
  function Processed(result: BatchResult): ProcessedResult
  {
    match result.data
    case None => ProcessedResult(result.queryId, false, map[], [NoDataError], result.meta, result)
    case Some(ps) =>
      ProcessedResult(result.queryId, exists i :: 0 <= i < |ps| && Delivered(ps[i]), Collected(ps), ErrorsOf(ps),
                      result.meta, result)
  }

  /** The loop over one entry's parameter results. */
  method ProcessResult(result: BatchResult) returns (processed: ProcessedResult)
    ensures processed == Processed(result)
  {
    processed := ProcessedResult(result.queryId, false, map[], [], result.meta, result);
    if result.data.Some? {
      var ps := result.data.value;
      for i := 0 to |ps|
        invariant processed.queryId == result.queryId && processed.meta == result.meta && processed.rawResult == result
        invariant processed.success <==> exists j :: 0 <= j < i && Delivered(ps[j])
        invariant processed.data == Collected(ps[..i])
        invariant processed.errors == ErrorsOf(ps[..i])
      {
        var paramResult := ps[i];
        CollectStep(ps, i);
        if paramResult.success && paramResult.data.Some? {
          processed := processed.(data := processed.data[paramResult.parameter := paramResult.data.value],
                                  success := true);
        } else {
          processed := processed.(errors := processed.errors + [ParamError(paramResult.parameter, paramResult.error)]);
        }
      }
      assert ps[..|ps|] == ps;
    } else {
      processed := processed.(errors := processed.errors + [NoDataError]);
    }
  }

  lemma CollectStep(ps: seq<ParamResult>, i: int)
    requires 0 <= i < |ps|
    ensures Collected(ps[..i + 1]) == if Delivered(ps[i]) then Collected(ps[..i])[ps[i].parameter := ps[i].data.value] else Collected(ps[..i])
    ensures ErrorsOf(ps[..i + 1]) == ErrorsOf(ps[..i]) + (if Delivered(ps[i]) then [] else [ErrorOf(ps[i])])
    ensures (exists j :: 0 <= j < i + 1 && Delivered(ps[j])) <==> (exists j :: 0 <= j < i && Delivered(ps[j])) || Delivered(ps[i])
  {
    assert ps[..i + 1][..i] == ps[..i];
  }

  /** `processedResults`: no results give none; otherwise one per entry, in order. */
  method ProcessResults(results: Option<seq<BatchResult>>) returns (out: seq<ProcessedResult>)
    ensures results.None? ==> out == []
    ensures results.Some? ==> (|out| == |results.value| &&
      forall i :: 0 <= i < |out| ==> out[i] == Processed(results.value[i]))
  {
    out := [];
    if results.Some? {
      var rs := results.value;
      for i := 0 to |rs|
        invariant |out| == i
        invariant forall j :: 0 <= j < i ==> out[j] == Processed(rs[j])
      {
        var p := ProcessResult(rs[i]);
        out := out + [p];
      }
    }
  }

  /** Every parameter result is either delivered or reported as an error:
      the errors are the failed results, in order. */
  lemma {:induction false} ErrorsAreTheFailures(ps: seq<ParamResult>)
    ensures var f := Seqs.Select(ps, Failed);
      |ErrorsOf(ps)| == |f| && forall i :: 0 <= i < |f| ==> ErrorsOf(ps)[i] == ErrorOf(f[i])
  {
    if ps != [] {
      ErrorsAreTheFailures(ps[..|ps| - 1]);
    }
  }

  /** A parameter has data exactly when some result for it delivered data,
      and the data is that of the last such result. */
  lemma {:induction false} CollectedMeaning(ps: seq<ParamResult>, k: string)
    ensures k in Collected(ps) <==> exists i :: 0 <= i < |ps| && Delivered(ps[i]) && ps[i].parameter == k
    ensures k in Collected(ps) ==> exists i :: (0 <= i < |ps| && Delivered(ps[i]) && ps[i].parameter == k &&
      Collected(ps)[k] == ps[i].data.value &&
      forall j :: i < j < |ps| ==> !(Delivered(ps[j]) && ps[j].parameter == k))
  {
    if ps != [] {
      var init, p := ps[..|ps| - 1], ps[|ps| - 1];
      CollectedMeaning(init, k);
      assert forall i :: 0 <= i < |init| ==> init[i] == ps[i];
      if !(Delivered(p) && p.parameter == k) && k in Collected(ps) {
        var i :| 0 <= i < |init| && Delivered(init[i]) && init[i].parameter == k &&
          Collected(init)[k] == init[i].data.value &&
          forall j :: i < j < |init| ==> !(Delivered(init[j]) && init[j].parameter == k);
        assert forall j :: i < j < |ps| ==> !(Delivered(ps[j]) && ps[j].parameter == k);
      }
    }
  }

  /** An entry succeeds exactly when one of its parameters delivered data;
      without a data array it fails with the single "query" error. */
  lemma ProcessedMeaning(result: BatchResult)
    ensures var p := Processed(result);
      p.queryId == result.queryId &&
      (result.data.None? ==> !p.success && p.data == map[] && p.errors == [NoDataError]) &&
      (result.data.Some? ==>
        (p.success <==> |p.data| > 0) &&
        |p.errors| == |Seqs.Select(result.data.value, Failed)| &&
        (forall i :: 0 <= i < |p.errors| ==> p.errors[i] == ErrorOf(Seqs.Select(result.data.value, Failed)[i])) &&
        |p.errors| < |result.data.value| + (if p.success then 0 else 1))
  {
    if result.data.Some? {
      var ps := result.data.value;
      ErrorsAreTheFailures(ps);
      SuccessIffData(ps);
      FailuresFewer(ps);
    }
  }

  lemma SuccessIffData(ps: seq<ParamResult>)
    ensures (exists i :: 0 <= i < |ps| && Delivered(ps[i])) <==> |Collected(ps)| > 0
  {
    if exists i :: 0 <= i < |ps| && Delivered(ps[i]) {
      var i :| 0 <= i < |ps| && Delivered(ps[i]);
      CollectedMeaning(ps, ps[i].parameter);
      assert ps[i].parameter in Collected(ps);
    }
    if |Collected(ps)| > 0 {
      var k :| k in Collected(ps);
      CollectedMeaning(ps, k);
    }
  }

  /** There are fewer errors than parameter results once one delivered. */
  lemma {:induction false} FailuresFewer(ps: seq<ParamResult>)
    ensures |ErrorsOf(ps)| <= |ps|
    ensures (exists i :: 0 <= i < |ps| && Delivered(ps[i])) ==> |ErrorsOf(ps)| < |ps|
  {
    if ps != [] {
      var init := ps[..|ps| - 1];
      FailuresFewer(init);
      assert forall i :: 0 <= i < |init| ==> init[i] == ps[i];
    }
  }

  // ---------------------------------------------------------------------
  // Profiles

  /** A profile row; the fields other than `visitor_id` are opaque here. */
  datatype Profile = Profile(visitor_id: string, details: string)

  function Ids(ps: seq<Profile>): set<string>
  {
    set p | p in ps :: p.visitor_id
  }

  /** The first row of every visitor, in order. */
  function Dedupe(ps: seq<Profile>): seq<Profile>
  {
    if ps == [] then []
    else
      var d, p := Dedupe(ps[..|ps| - 1]), ps[|ps| - 1];
      if p.visitor_id in Ids(d) then d else d + [p]
  }

  /** `dedupeProfiles`: a filter that grows a `seen` set. */
  method DedupeProfiles(profiles: seq<Profile>) returns (kept: seq<Profile>)
    ensures kept == Dedupe(profiles)
  {
    var seen: set<string> := {};
    kept := [];
    for i := 0 to |profiles|
      invariant kept == Dedupe(profiles[..i])
      invariant seen == Ids(kept)
    {
      var p := profiles[i];
      assert profiles[..i + 1][..i] == profiles[..i];
      if p.visitor_id in seen {
        continue;
      }
      seen := seen + {p.visitor_id};
      kept := kept + [p];
    }
    assert profiles[..|profiles|] == profiles;
  }

  /** The kept rows cover every visitor of the input and no other. */
  lemma {:induction false} DedupeIds(ps: seq<Profile>)
    ensures Ids(Dedupe(ps)) == Ids(ps)
  {
    if ps != [] {
      var init, p := ps[..|ps| - 1], ps[|ps| - 1];
      DedupeIds(init);
      assert ps == init + [p];
      assert Ids(ps) == Ids(init) + {p.visitor_id};
      var d := Dedupe(init);
      assert Ids(d + [p]) == Ids(d) + {p.visitor_id};
    }
  }

  /** No two rows of `ps` belong to the same visitor. */
  predicate DistinctIds(ps: seq<Profile>)
  {
    forall i, j :: 0 <= i < j < |ps| ==> ps[i].visitor_id != ps[j].visitor_id
  }

  /** The kept rows have distinct visitors. */
  lemma {:induction false} DedupeDistinct(ps: seq<Profile>)
    ensures DistinctIds(Dedupe(ps))
  {
    if ps != [] {
      var init, p := ps[..|ps| - 1], ps[|ps| - 1];
      DedupeDistinct(init);
      var d := Dedupe(init);
      if p.visitor_id !in Ids(d) {
        var d' := d + [p];
        assert Dedupe(ps) == d';
        forall i, j | 0 <= i < j < |d'| ensures d'[i].visitor_id != d'[j].visitor_id {
          if j == |d| {
            assert d'[i] == d[i] && d[i] in d && d'[j] == p;
            assert d[i].visitor_id in Ids(d);
          } else {
            assert d'[i] == d[i] && d'[j] == d[j];
          }
        }
      }
    }
  }

  /** The kept rows come in input order. */
  lemma {:induction false} DedupeSubseq(ps: seq<Profile>)
    ensures Seqs.IsSubseq(Dedupe(ps), ps)
  {
    if ps != [] {
      var init, p := ps[..|ps| - 1], ps[|ps| - 1];
      DedupeSubseq(init);
      assert ps == init + [p];
      if p.visitor_id in Ids(Dedupe(init)) {
        Seqs.SubseqOfExtension(Dedupe(init), init, p);
      } else {
        Seqs.SubseqAppend(Dedupe(init), init, p);
      }
    }
  }

  /** Row `i` is its visitor's first row. */
  predicate FirstRow(ps: seq<Profile>, i: int)
    requires 0 <= i < |ps|
  {
    forall j :: 0 <= j < i ==> ps[j].visitor_id != ps[i].visitor_id
  }

  /** Every visitor's first row is kept. */
  lemma {:induction false} DedupeKeepsFirst(ps: seq<Profile>, i: int)
    requires 0 <= i < |ps| && FirstRow(ps, i)
    ensures ps[i] in Dedupe(ps)
  {
    var init, p := ps[..|ps| - 1], ps[|ps| - 1];
    DedupeIds(init);
    if i < |init| {
      assert init[i] == ps[i];
      assert FirstRow(init, i) by {
        assert forall j :: 0 <= j < i ==> init[j] == ps[j];
      }
      DedupeKeepsFirst(init, i);
    } else {
      forall q | q in init ensures q.visitor_id != p.visitor_id {
        var j :| 0 <= j < |init| && init[j] == q;
        assert ps[j] == q;
      }
      assert p.visitor_id !in Ids(Dedupe(init));
    }
  }

  /** Every kept row is the first row of its visitor. */
  lemma {:induction false} DedupeKeepsOnlyFirst(ps: seq<Profile>)
    ensures forall x :: x in Dedupe(ps) ==> exists i :: 0 <= i < |ps| && ps[i] == x && FirstRow(ps, i)
  {
    if ps != [] {
      var init, p := ps[..|ps| - 1], ps[|ps| - 1];
      DedupeKeepsOnlyFirst(init);
      DedupeIds(init);
      var d := Dedupe(init);
      forall x | x in Dedupe(ps)
        ensures exists i :: 0 <= i < |ps| && ps[i] == x && FirstRow(ps, i)
      {
        if x in d {
          var i :| 0 <= i < |init| && init[i] == x && FirstRow(init, i);
          assert ps[i] == x;
          assert FirstRow(ps, i) by {
            assert forall j :: 0 <= j < i ==> init[j] == ps[j];
          }
        } else {
          assert x == p && p.visitor_id !in Ids(init);
          assert ps[|init|] == x;
          forall j | 0 <= j < |init| ensures ps[j].visitor_id != x.visitor_id {
            assert ps[j] == init[j] && init[j] in init;
          }
        }
      }
    }
  }

  // ---------------------------------------------------------------------
  // Pagination

  /** The next page exists when this one came back full. */
  predicate HasNextPage(profiles: seq<Profile>, limit: int)
  {
    |profiles| == limit
  }

  predicate HasPrevPage(page: int)
  {
    page > 1
  }

  /** With de-duplicated profiles, a next page is offered only when the
      server returned at least a full page of rows, and never for a page
      that repeated a visitor among fewer than `limit` + 1 rows. */
  lemma NextPageNeedsFullPage(raw: seq<Profile>, limit: int)
    ensures HasNextPage(Dedupe(raw), limit) ==> |raw| >= limit
    ensures |raw| == limit && |Ids(raw)| < |raw| ==> !HasNextPage(Dedupe(raw), limit)
  {
    DedupeSize(raw);
  }

  lemma {:induction false} DedupeSize(ps: seq<Profile>)
    ensures |Dedupe(ps)| == |Ids(ps)| <= |ps|
  {
    if ps != [] {
      var init, p := ps[..|ps| - 1], ps[|ps| - 1];
      DedupeSize(init);
      DedupeIds(init);
      assert ps == init + [p];
      IdsAppend(init, p);
      var d := Dedupe(init);
      if p.visitor_id in Ids(init) {
        assert Ids(ps) == Ids(init);
      } else {
        assert Dedupe(ps) == d + [p];
        assert |Ids(init) + {p.visitor_id}| == |Ids(init)| + 1;
      }
    }
  }

  lemma IdsAppend(ps: seq<Profile>, p: Profile)
    ensures Ids(ps + [p]) == Ids(ps) + {p.visitor_id}
  {
  }

  /** A built query without an explicit page is on the first page, which
      offers no previous page. */
  lemma PrevPageNeedsExplicitPage(query: QueryRequest, dateRange: DateRange, timeZone: string)
    ensures HasPrevPage(BuildQuery(query, dateRange, timeZone).page) <==> query.page.Some? && query.page.value > 1
  {
  }
}
