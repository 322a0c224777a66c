/** The analytics schema of `packages/shared/src/schema/analytics-tables.ts`:
    the column constructor `col` with its defaults, the six queryable tables,
    and the lookups and allow-list predicates the query builder and the SQL
    validation use. Every lookup is a `find`, `some` or `filter` over a
    constant list. */
module AnalyticsTables {
  import opened Common
  import Seqs

  datatype ColumnType = StringType | NumberType | DatetimeType | BooleanType | ArrayType

  datatype TableColumn = TableColumn(name: string, kind: ColumnType, nullable: bool, labelText: string,
                                     description: Option<string>, aggregatable: bool, filterable: bool)

  datatype Database = Analytics | Uptime | Observability

  datatype TableDefinition = TableDefinition(name: string, database: Database, labelText: string, description: string,
                                             columns: seq<TableColumn>, primaryTimeField: string, clientIdField: string)

  /** The optional fields of `col`'s options argument; `None` is an absent field. */
  datatype ColumnOptions = ColumnOptions(nullable: Option<bool>, description: Option<string>,
                                         aggregatable: Option<bool>, filterable: Option<bool>)

  const NoOptions: ColumnOptions := ColumnOptions(None, None, None, None)

  /** `x ?? d`. */
  function OrElse<T>(x: Option<T>, d: T): T
  {
    if x.Some? then x.value else d
  }

  /** `col(name, type, labelText, options?)`: an absent options argument is `None`. */
  function Col(name: string, kind: ColumnType, labelText: string, options: Option<ColumnOptions>): TableColumn
  {
    var o := OrElse(options, NoOptions);
    TableColumn(name, kind, OrElse(o.nullable, false), labelText, o.description,
                OrElse(o.aggregatable, kind == NumberType), OrElse(o.filterable, true))
  }

  /** Without options a column is not nullable, has no description, is
      filterable, and is aggregatable exactly when it is a number. */
  lemma ColDefaults(name: string, kind: ColumnType, labelText: string)
    ensures var c := Col(name, kind, labelText, None);
      c.name == name && c.kind == kind && c.labelText == labelText &&
      !c.nullable && c.description.None? && c.filterable && (c.aggregatable <==> kind == NumberType)
  {
  }

  /** An option that is given overrides its default; one that is absent keeps it. */
  lemma ColOverrides(name: string, kind: ColumnType, labelText: string, o: ColumnOptions)
    ensures var c := Col(name, kind, labelText, Some(o));
      (c.nullable <==> (o.nullable == Some(true))) &&
      c.description == o.description &&
      (c.aggregatable <==> (if o.aggregatable.Some? then o.aggregatable.value else kind == NumberType)) &&
      (c.filterable <==> (o.filterable != Some(false)))
  {
  }

  const EventsTable: TableDefinition := TableDefinition(
    "events", Analytics, "Events", "Page views, sessions, and user interactions",
    [
      Col("id", StringType, "Event ID", Some(NoOptions.(filterable := Some(false)))),
      Col("client_id", StringType, "Website ID", Some(NoOptions.(filterable := Some(false)))),
      Col("event_name", StringType, "Event Name", Some(NoOptions.(description := Some("Type of event (screen_view, etc.)")))),
      Col("anonymous_id", StringType, "Anonymous ID", Some(NoOptions.(description := Some("Unique visitor identifier")))),
      Col("time", DatetimeType, "Event Time", None),
      Col("session_id", StringType, "Session ID", None),
      Col("event_type", StringType, "Event Type", Some(NoOptions.(description := Some("track, error, or web_vitals")))),
      Col("referrer", StringType, "Referrer", Some(NoOptions.(nullable := Some(true)))),
      Col("url", StringType, "URL", None),
      Col("path", StringType, "Path", None),
      Col("title", StringType, "Page Title", Some(NoOptions.(nullable := Some(true)))),
      Col("ip", StringType, "IP Address", Some(NoOptions.(filterable := Some(false)))),
      Col("user_agent", StringType, "User Agent", Some(NoOptions.(filterable := Some(false)))),
      Col("browser_name", StringType, "Browser", Some(NoOptions.(nullable := Some(true)))),
      Col("browser_version", StringType, "Browser Version", Some(NoOptions.(nullable := Some(true)))),
      Col("os_name", StringType, "Operating System", Some(NoOptions.(nullable := Some(true)))),
      Col("os_version", StringType, "OS Version", Some(NoOptions.(nullable := Some(true)))),
      Col("device_type", StringType, "Device Type", Some(NoOptions.(nullable := Some(true), description := Some("desktop, mobile, tablet")))),
      Col("device_brand", StringType, "Device Brand", Some(NoOptions.(nullable := Some(true)))),
      Col("device_model", StringType, "Device Model", Some(NoOptions.(nullable := Some(true)))),
      Col("country", StringType, "Country", Some(NoOptions.(nullable := Some(true)))),
      Col("region", StringType, "Region", Some(NoOptions.(nullable := Some(true)))),
      Col("city", StringType, "City", Some(NoOptions.(nullable := Some(true)))),
      Col("screen_resolution", StringType, "Screen Resolution", Some(NoOptions.(nullable := Some(true)))),
      Col("viewport_size", StringType, "Viewport Size", Some(NoOptions.(nullable := Some(true)))),
      Col("language", StringType, "Language", Some(NoOptions.(nullable := Some(true)))),
      Col("timezone", StringType, "Timezone", Some(NoOptions.(nullable := Some(true)))),
      Col("connection_type", StringType, "Connection Type", Some(NoOptions.(nullable := Some(true)))),
      Col("rtt", NumberType, "Round Trip Time (ms)", Some(NoOptions.(nullable := Some(true)))),
      Col("downlink", NumberType, "Downlink Speed", Some(NoOptions.(nullable := Some(true)))),
      Col("time_on_page", NumberType, "Time on Page (s)", Some(NoOptions.(nullable := Some(true)))),
      Col("scroll_depth", NumberType, "Scroll Depth (%)", Some(NoOptions.(nullable := Some(true)))),
      Col("interaction_count", NumberType, "Interaction Count", Some(NoOptions.(nullable := Some(true)))),
      Col("page_count", NumberType, "Page Count", None),
      Col("utm_source", StringType, "UTM Source", Some(NoOptions.(nullable := Some(true)))),
      Col("utm_medium", StringType, "UTM Medium", Some(NoOptions.(nullable := Some(true)))),
      Col("utm_campaign", StringType, "UTM Campaign", Some(NoOptions.(nullable := Some(true)))),
      Col("utm_term", StringType, "UTM Term", Some(NoOptions.(nullable := Some(true)))),
      Col("utm_content", StringType, "UTM Content", Some(NoOptions.(nullable := Some(true)))),
      Col("load_time", NumberType, "Load Time (ms)", Some(NoOptions.(nullable := Some(true)))),
      Col("dom_ready_time", NumberType, "DOM Ready Time (ms)", Some(NoOptions.(nullable := Some(true)))),
      Col("dom_interactive", NumberType, "DOM Interactive (ms)", Some(NoOptions.(nullable := Some(true)))),
      Col("ttfb", NumberType, "Time to First Byte (ms)", Some(NoOptions.(nullable := Some(true)))),
      Col("connection_time", NumberType, "Connection Time (ms)", Some(NoOptions.(nullable := Some(true)))),
      Col("render_time", NumberType, "Render Time (ms)", Some(NoOptions.(nullable := Some(true)))),
      Col("redirect_time", NumberType, "Redirect Time (ms)", Some(NoOptions.(nullable := Some(true)))),
      Col("domain_lookup_time", NumberType, "DNS Lookup Time (ms)", Some(NoOptions.(nullable := Some(true))))
    ],
    "time", "client_id")

  const ErrorSpansTable: TableDefinition := TableDefinition(
    "error_spans", Analytics, "Errors", "JavaScript errors and exceptions",
    [
      Col("client_id", StringType, "Website ID", Some(NoOptions.(filterable := Some(false)))),
      Col("anonymous_id", StringType, "Anonymous ID", None),
      Col("session_id", StringType, "Session ID", None),
      Col("timestamp", DatetimeType, "Timestamp", None),
      Col("path", StringType, "Path", None),
      Col("message", StringType, "Error Message", None),
      Col("filename", StringType, "Filename", Some(NoOptions.(nullable := Some(true)))),
      Col("lineno", NumberType, "Line Number", Some(NoOptions.(nullable := Some(true), aggregatable := Some(false)))),
      Col("colno", NumberType, "Column Number", Some(NoOptions.(nullable := Some(true), aggregatable := Some(false)))),
      Col("stack", StringType, "Stack Trace", Some(NoOptions.(nullable := Some(true), filterable := Some(false)))),
      Col("error_type", StringType, "Error Type", None)
    ],
    "timestamp", "client_id")

  const WebVitalsSpansTable: TableDefinition := TableDefinition(
    "web_vitals_spans", Analytics, "Web Vitals", "Core Web Vitals performance metrics",
    [
      Col("client_id", StringType, "Website ID", Some(NoOptions.(filterable := Some(false)))),
      Col("anonymous_id", StringType, "Anonymous ID", None),
      Col("session_id", StringType, "Session ID", None),
      Col("timestamp", DatetimeType, "Timestamp", None),
      Col("path", StringType, "Path", None),
      Col("metric_name", StringType, "Metric Name", Some(NoOptions.(description := Some("FCP, LCP, CLS, INP, TTFB, FPS")))),
      Col("metric_value", NumberType, "Metric Value", None)
    ],
    "timestamp", "client_id")

  const CustomEventSpansTable: TableDefinition := TableDefinition(
    "custom_event_spans", Analytics, "Custom Events", "User-defined custom events",
    [
      Col("client_id", StringType, "Website ID", Some(NoOptions.(filterable := Some(false)))),
      Col("anonymous_id", StringType, "Anonymous ID", None),
      Col("session_id", StringType, "Session ID", None),
      Col("timestamp", DatetimeType, "Timestamp", None),
      Col("path", StringType, "Path", None),
      Col("event_name", StringType, "Event Name", None),
      Col("properties", StringType, "Properties JSON", Some(NoOptions.(filterable := Some(false), aggregatable := Some(false))))
    ],
    "timestamp", "client_id")

  const OutgoingLinksTable: TableDefinition := TableDefinition(
    "outgoing_links", Analytics, "Outgoing Links", "External link clicks",
    [
      Col("id", StringType, "ID", Some(NoOptions.(filterable := Some(false)))),
      Col("client_id", StringType, "Website ID", Some(NoOptions.(filterable := Some(false)))),
      Col("anonymous_id", StringType, "Anonymous ID", None),
      Col("session_id", StringType, "Session ID", None),
      Col("href", StringType, "Link URL", None),
      Col("text", StringType, "Link Text", Some(NoOptions.(nullable := Some(true)))),
      Col("properties", StringType, "Properties JSON", Some(NoOptions.(filterable := Some(false), aggregatable := Some(false)))),
      Col("timestamp", DatetimeType, "Timestamp", None)
    ],
    "timestamp", "client_id")

  const DailyPageviewsTable: TableDefinition := TableDefinition(
    "daily_pageviews", Analytics, "Daily Pageviews", "Pre-aggregated daily pageview counts",
    [
      Col("client_id", StringType, "Website ID", Some(NoOptions.(filterable := Some(false)))),
      Col("date", DatetimeType, "Date", None),
      Col("pageviews", NumberType, "Pageviews", None)
    ],
    "date", "client_id")

  /** `ANALYTICS_TABLES`, in the order `find` searches them. */
  const AnalyticsTablesList: seq<TableDefinition> :=
    [EventsTable, ErrorSpansTable, WebVitalsSpansTable, CustomEventSpansTable, OutgoingLinksTable, DailyPageviewsTable]

  // ---------------------------------------------------------------------
  // Lookups

  /** `tables.find((t) => t.name === name)`. */
  function FindTable(tables: seq<TableDefinition>, name: string): Option<TableDefinition>
  {
    if |tables| == 0 then None
    else if tables[0].name == name then Some(tables[0])
    else FindTable(tables[1..], name)
  }

  /** `columns.find((c) => c.name === name)`. */
  function FindColumn(columns: seq<TableColumn>, name: string): Option<TableColumn>
  {
    if |columns| == 0 then None
    else if columns[0].name == name then Some(columns[0])
    else FindColumn(columns[1..], name)
  }

  function GetTableDefinition(tableName: string): Option<TableDefinition>
  {
    FindTable(AnalyticsTablesList, tableName)
  }

  function GetColumnDefinition(tableName: string, columnName: string): Option<TableColumn>
  {
    match GetTableDefinition(tableName)
    case None => None
    case Some(table) => FindColumn(table.columns, columnName)
  }

  predicate IsValidTable(tableName: string)
  {
    exists i :: 0 <= i < |AnalyticsTablesList| && AnalyticsTablesList[i].name == tableName
  }

  /** `table?.columns.some((c) => c.name === columnName) ?? false`. */
  predicate IsValidColumn(tableName: string, columnName: string)
  {
    match GetTableDefinition(tableName)
    case None => false
    case Some(table) => exists i :: 0 <= i < |table.columns| && table.columns[i].name == columnName
  }

  predicate IsFilterable(c: TableColumn)
  {
    c.filterable
  }

  predicate IsAggregatable(c: TableColumn)
  {
    c.aggregatable
  }

  function GetFilterableColumns(tableName: string): seq<TableColumn>
  {
    match GetTableDefinition(tableName)
    case None => []
    case Some(table) => Seqs.Select(table.columns, IsFilterable)
  }

  function GetAggregatableColumns(tableName: string): seq<TableColumn>
  {
    match GetTableDefinition(tableName)
    case None => []
    case Some(table) => Seqs.Select(table.columns, IsAggregatable)
  }

  // ---------------------------------------------------------------------
  // Properties

  /** `find` returns the first table with the name, and nothing when none has it. */
  lemma {:induction false} FindTableMeaning(tables: seq<TableDefinition>, name: string)
    ensures FindTable(tables, name).None? <==> forall i :: 0 <= i < |tables| ==> tables[i].name != name
    ensures FindTable(tables, name).Some? ==>
      exists i :: 0 <= i < |tables| && tables[i] == FindTable(tables, name).value && tables[i].name == name &&
        forall j :: 0 <= j < i ==> tables[j].name != name
  {
    if |tables| > 0 && tables[0].name != name {
      FindTableMeaning(tables[1..], name);
      var r := FindTable(tables, name);
      if r.Some? {
        var i :| 0 <= i < |tables[1..]| && tables[1..][i] == r.value && tables[1..][i].name == name &&
          forall j :: 0 <= j < i ==> tables[1..][j].name != name;
        assert tables[i + 1] == r.value;
        assert forall j :: 0 <= j < i + 1 ==> tables[j].name != name by {
          assert forall j :: 1 <= j < i + 1 ==> tables[j] == tables[1..][j - 1];
        }
      }
      assert forall i :: 1 <= i < |tables| ==> tables[i] == tables[1..][i - 1];
    }
  }

  /** `find` over columns: the first column with the name, or nothing. */
  lemma {:induction false} FindColumnMeaning(columns: seq<TableColumn>, name: string)
    ensures FindColumn(columns, name).None? <==> forall i :: 0 <= i < |columns| ==> columns[i].name != name
    ensures FindColumn(columns, name).Some? ==>
      exists i :: 0 <= i < |columns| && columns[i] == FindColumn(columns, name).value && columns[i].name == name &&
        forall j :: 0 <= j < i ==> columns[j].name != name
  {
    if |columns| > 0 && columns[0].name != name {
      FindColumnMeaning(columns[1..], name);
      var r := FindColumn(columns, name);
      if r.Some? {
        var i :| 0 <= i < |columns[1..]| && columns[1..][i] == r.value && columns[1..][i].name == name &&
          forall j :: 0 <= j < i ==> columns[1..][j].name != name;
        assert columns[i + 1] == r.value;
        assert forall j :: 0 <= j < i + 1 ==> columns[j].name != name by {
          assert forall j :: 1 <= j < i + 1 ==> columns[j] == columns[1..][j - 1];
        }
      }
      assert forall i :: 1 <= i < |columns| ==> columns[i] == columns[1..][i - 1];
    }
  }

  /** A table name is valid exactly when it has a definition. */
  lemma ValidTableIffDefined(tableName: string)
    ensures IsValidTable(tableName) <==> GetTableDefinition(tableName).Some?
    ensures GetTableDefinition(tableName).Some? ==> GetTableDefinition(tableName).value.name == tableName
  {
    FindTableMeaning(AnalyticsTablesList, tableName);
  }

  /** A column is valid exactly when it has a definition; no column of an
      unknown table is valid. */
  lemma ValidColumnIffDefined(tableName: string, columnName: string)
    ensures IsValidColumn(tableName, columnName) <==> GetColumnDefinition(tableName, columnName).Some?
    ensures !IsValidTable(tableName) ==> !IsValidColumn(tableName, columnName)
    ensures GetColumnDefinition(tableName, columnName).Some? ==>
      GetColumnDefinition(tableName, columnName).value.name == columnName
  {
    ValidTableIffDefined(tableName);
    var t := GetTableDefinition(tableName);
    if t.Some? {
      FindColumnMeaning(t.value.columns, columnName);
    }
  }

  /** The filterable columns of a table, in table order; none for an unknown table. */
  lemma FilterableColumnsMeaning(tableName: string)
    ensures var t := GetTableDefinition(tableName);
      (t.None? ==> GetFilterableColumns(tableName) == []) &&
      (t.Some? ==>
        (forall c :: c in GetFilterableColumns(tableName) <==> c in t.value.columns && c.filterable) &&
        Seqs.IsSubseq(GetFilterableColumns(tableName), t.value.columns))
  {
    var t := GetTableDefinition(tableName);
    if t.Some? {
      Seqs.SelectMeaning(t.value.columns, IsFilterable);
    }
  }

  /** The aggregatable columns of a table, in table order; none for an unknown table. */
  lemma AggregatableColumnsMeaning(tableName: string)
    ensures var t := GetTableDefinition(tableName);
      (t.None? ==> GetAggregatableColumns(tableName) == []) &&
      (t.Some? ==>
        (forall c :: c in GetAggregatableColumns(tableName) <==> c in t.value.columns && c.aggregatable) &&
        Seqs.IsSubseq(GetAggregatableColumns(tableName), t.value.columns))
  {
    var t := GetTableDefinition(tableName);
    if t.Some? {
      Seqs.SelectMeaning(t.value.columns, IsAggregatable);
    }
  }

  /** Among tables with distinct names, `find` returns the one with the name asked for. */
  lemma FindDistinct(tables: seq<TableDefinition>, i: int)
    requires 0 <= i < |tables|
    requires forall j, k :: 0 <= j < k < |tables| ==> tables[j].name != tables[k].name
    ensures FindTable(tables, tables[i].name) == Some(tables[i])
  {
    FindTableMeaning(tables, tables[i].name);
  }

  /** The six tables have distinct names, so each is found by its own name. */
  lemma EveryTableFound(i: int)
    requires 0 <= i < |AnalyticsTablesList|
    ensures GetTableDefinition(AnalyticsTablesList[i].name) == Some(AnalyticsTablesList[i])
    ensures IsValidTable(AnalyticsTablesList[i].name)
  {
    var ts := AnalyticsTablesList;
    assert |ts[0].name| == 6 && |ts[1].name| == 11 && |ts[2].name| == 16;
    assert |ts[3].name| == 18 && |ts[4].name| == 14 && |ts[5].name| == 15;
    FindDistinct(ts, i);
  }
}
