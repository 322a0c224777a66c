/** `buildFilterConditions` of `packages/rpc/src/lib/analytics-utils.ts`: every
    filter is checked against a fixed allow-list of fields and operators; an
    invalid one is reported and skipped, and a valid one contributes a
    ClickHouse predicate and, for most operators, a bound query parameter. */
module FilterClause {
  import opened Common
  import opened Text
  import Seqs

  /** A filter value: a single string or a list of strings. */
  datatype FilterValue = Str(s: string) | Arr(items: seq<string>)

  datatype Filter = Filter(field: string, operator: string, value: FilterValue)

  /** A value bound in the query parameters. */
  datatype ParamValue = PStr(s: string) | PArr(items: seq<string>)

  /** The query parameters `params: Record<string, unknown>` that the builder
      writes into. */
  class Params {
    var values: map<string, ParamValue>

    constructor (initial: map<string, ParamValue>)
      ensures values == initial
    {
      values := initial;
    }
  }

  const AllowedFields: set<string> := {
    "event_name", "path", "referrer", "user_agent", "country", "city",
    "device_type", "browser_name", "os_name", "screen_resolution", "language",
    "utm_source", "utm_medium", "utm_campaign", "utm_term", "utm_content"
  }

  const AllowedOps: set<string> := {
    "equals", "not_equals", "contains", "not_contains", "starts_with",
    "ends_with", "in", "not_in", "is_null", "is_not_null"
  }

  predicate IsWildcard(c: char)
  {
    c == '%' || c == '_'
  }

  /** `value.replace(/[%_]/g, "\\$&")`: a backslash before every `%` and `_`. */
  function Escape(s: string): string
  {
    if s == [] then []
    else (if IsWildcard(s[0]) then ['\\', s[0]] else [s[0]]) + Escape(s[1..])
  }

  /** The inverse of `Escape`: a backslash followed by a wildcard stands for
      that wildcard, every other character for itself. It is not how a `LIKE`
      pattern is read, which also gives a backslash before any other
      character a meaning of its own. */
  function Unescape(s: string): string
  {
    if s == [] then []
    else if |s| >= 2 && s[0] == '\\' && IsWildcard(s[1]) then [s[1]] + Unescape(s[2..])
    else [s[0]] + Unescape(s[1..])
  }

  lemma {:induction false} EscapeStart(s: string)
    ensures |Escape(s)| >= |s|
    ensures s != [] ==> Escape(s) != [] && !IsWildcard(Escape(s)[0])
    ensures s != [] && !IsWildcard(s[0]) ==> Escape(s)[0] == s[0]
    ensures s != [] && IsWildcard(s[0]) ==> Escape(s)[0] == '\\'
  {
    if s != [] {
      EscapeStart(s[1..]);
    }
  }

  /** Escaping loses nothing: `Unescape` gives the original text back. */
  lemma {:induction false} UnescapeEscape(s: string)
    ensures Unescape(Escape(s)) == s
  {
    if s != [] {
      var rest := Escape(s[1..]);
      UnescapeEscape(s[1..]);
      if IsWildcard(s[0]) {
        assert Escape(s) == ['\\', s[0]] + rest;
        assert Escape(s)[2..] == rest;
      } else {
        assert Escape(s) == [s[0]] + rest;
        assert Escape(s)[1..] == rest;
        if s[0] == '\\' && |Escape(s)| >= 2 {
          EscapeStart(s[1..]);
          assert Escape(s)[1] == rest[0];
        }
      }
    }
  }

  /** In an escaped string every wildcard follows a backslash. */
  lemma {:induction false} EscapedWildcardsAreQuoted(s: string)
    ensures forall i :: 0 <= i < |Escape(s)| && IsWildcard(Escape(s)[i]) ==> i > 0 && Escape(s)[i - 1] == '\\'
  {
    if s != [] {
      EscapedWildcardsAreQuoted(s[1..]);
      var head := if IsWildcard(s[0]) then ['\\', s[0]] else [s[0]];
      var e := Escape(s);
      assert e == head + Escape(s[1..]);
      forall i | 0 <= i < |e| && IsWildcard(e[i]) ensures i > 0 && e[i - 1] == '\\' {
        if i >= |head| {
          assert e[i] == Escape(s[1..])[i - |head|];
          if i - |head| == 0 {
            assert false;
          }
        }
      }
    }
  }

  /** The parameter name of a filter: `${prefix}_${field}_${operator}`. */
  function Key(prefix: string, f: Filter): string
  {
    prefix + "_" + f.field + "_" + f.operator
  }

  /** The error a filter raises, if any: the field is checked before the operator. */
  function Validate(f: Filter): Option<string>
  {
    if f.field !in AllowedFields then Some("Invalid field: " + f.field)
    else if f.operator !in AllowedOps then Some("Invalid operator: " + f.operator)
    else None
  }

  predicate IsValid(f: Filter)
  {
    f.field in AllowedFields && f.operator in AllowedOps
  }

  predicate IsNullCheck(f: Filter)
  {
    f.operator == "is_null" || f.operator == "is_not_null"
  }

  /** The predicate fragment of a valid filter. */
  function Condition(prefix: string, f: Filter): string
  {
    var key := Key(prefix, f);
    if f.operator == "is_null" then f.field + " IS NULL"
    else if f.operator == "is_not_null" then f.field + " IS NOT NULL"
    else if f.value.Arr? then
      if f.operator == "in" then f.field + " IN {" + key + ":Array(String)}"
      else f.field + " NOT IN {" + key + ":Array(String)}"
    else if f.operator == "contains" || f.operator == "starts_with" || f.operator == "ends_with" then
      f.field + " LIKE {" + key + ":String}"
    else if f.operator == "not_contains" then f.field + " NOT LIKE {" + key + ":String}"
    else if f.operator == "equals" then f.field + " = {" + key + ":String}"
    else f.field + " != {" + key + ":String}"
  }

  /** The parameter value a valid filter binds under its key, if any. */
  function Binding(f: Filter): Option<ParamValue>
  {
    if IsNullCheck(f) then None
    else match f.value
      case Arr(items) => Some(PArr(items))
      case Str(v) =>
        var e := Escape(v);
        if f.operator == "contains" || f.operator == "not_contains" then Some(PStr("%" + e + "%"))
        else if f.operator == "starts_with" then Some(PStr(e + "%"))
        else if f.operator == "ends_with" then Some(PStr("%" + e))
        else Some(PStr(e))
  }

  /** The errors of a list of filters, in order. */
  function Errors(fs: seq<Filter>): seq<string>
  {
    if fs == [] then []
    else
      var last := fs[|fs| - 1];
      Errors(fs[..|fs| - 1]) + (if Validate(last).Some? then [Validate(last).value] else [])
  }

  /** The predicate fragments of the valid filters, in order. */
  function Conditions(fs: seq<Filter>, prefix: string): seq<string>
  {
    if fs == [] then []
    else
      var last := fs[|fs| - 1];
      Conditions(fs[..|fs| - 1], prefix) + (if IsValid(last) then [Condition(prefix, last)] else [])
  }

  /** The parameters after binding the valid filters one after the other. */
  function Bind(values: map<string, ParamValue>, fs: seq<Filter>, prefix: string): map<string, ParamValue>
  {
    if fs == [] then values
    else
      var last := fs[|fs| - 1];
      var before := Bind(values, fs[..|fs| - 1], prefix);
      if IsValid(last) && Binding(last).Some? then before[Key(prefix, last) := Binding(last).value]
      else before
  }

  /** The clause appended to a query's WHERE. */
  function Clause(conditions: seq<string>): string
  {
    if |conditions| > 0 then " AND " + Join(conditions, " AND ") else ""
  }

  lemma FilterStep(fs: seq<Filter>, i: int, prefix: string, values: map<string, ParamValue>)
    requires 0 <= i < |fs|
    ensures var f, before := fs[i], fs[..i];
      && Errors(fs[..i + 1]) == Errors(before) + (if Validate(f).Some? then [Validate(f).value] else [])
      && Conditions(fs[..i + 1], prefix) == Conditions(before, prefix) + (if IsValid(f) then [Condition(prefix, f)] else [])
      && Bind(values, fs[..i + 1], prefix) ==
           if IsValid(f) && Binding(f).Some? then Bind(values, before, prefix)[Key(prefix, f) := Binding(f).value]
           else Bind(values, before, prefix)
  {
    assert fs[..i + 1][..i] == fs[..i];
  }

  method BuildFilterConditions(filters: seq<Filter>, prefix: string, params: Params)
    returns (conditions: string, errors: seq<string>)
    modifies params
    ensures errors == Errors(filters)
    ensures conditions == Clause(Conditions(filters, prefix))
    ensures params.values == Bind(old(params.values), filters, prefix)
  {
    var conds: seq<string> := [];
    errors := [];
    var i := 0;
    while i < |filters|
      invariant 0 <= i <= |filters|
      invariant errors == Errors(filters[..i])
      invariant conds == Conditions(filters[..i], prefix)
      invariant params.values == Bind(old(params.values), filters[..i], prefix)
    {
      var f := filters[i];
      FilterStep(filters, i, prefix, old(params.values));
      if f.field !in AllowedFields {
        errors := errors + ["Invalid field: " + f.field];
        i := i + 1;
        continue;
      }
      if f.operator !in AllowedOps {
        errors := errors + ["Invalid operator: " + f.operator];
        i := i + 1;
        continue;
      }
      var key := prefix + "_" + f.field + "_" + f.operator;
      if f.operator == "is_null" {
        conds := conds + [f.field + " IS NULL"];
      } else if f.operator == "is_not_null" {
        conds := conds + [f.field + " IS NOT NULL"];
      } else if f.value.Arr? {
        params.values := params.values[key := PArr(f.value.items)];
        if f.operator == "in" {
          conds := conds + [f.field + " IN {" + key + ":Array(String)}"];
        } else {
          conds := conds + [f.field + " NOT IN {" + key + ":Array(String)}"];
        }
      } else {
        var escaped := Escape(f.value.s);
        if f.operator == "contains" {
          params.values := params.values[key := PStr("%" + escaped + "%")];
          conds := conds + [f.field + " LIKE {" + key + ":String}"];
        } else if f.operator == "not_contains" {
          params.values := params.values[key := PStr("%" + escaped + "%")];
          conds := conds + [f.field + " NOT LIKE {" + key + ":String}"];
        } else if f.operator == "starts_with" {
          params.values := params.values[key := PStr(escaped + "%")];
          conds := conds + [f.field + " LIKE {" + key + ":String}"];
        } else if f.operator == "ends_with" {
          params.values := params.values[key := PStr("%" + escaped)];
          conds := conds + [f.field + " LIKE {" + key + ":String}"];
        } else {
          params.values := params.values[key := PStr(escaped)];
          if f.operator == "equals" {
            conds := conds + [f.field + " = {" + key + ":String}"];
          } else {
            conds := conds + [f.field + " != {" + key + ":String}"];
          }
        }
      }
      i := i + 1;
    }
    assert filters[..|filters|] == filters;
    conditions := if |conds| > 0 then " AND " + Join(conds, " AND ") else "";
  }

  // ---------------------------------------------------------------------
  // Properties

  /** Every filter yields exactly one of an error or a condition. */
  lemma {:induction false} ErrorOrCondition(fs: seq<Filter>, prefix: string)
    ensures |Errors(fs)| + |Conditions(fs, prefix)| == |fs|
  {
    if fs != [] {
      ErrorOrCondition(fs[..|fs| - 1], prefix);
    }
  }

  /** The error messages are those of the invalid filters, in order. */
  lemma {:induction false} ErrorsOfInvalid(fs: seq<Filter>)
    ensures Errors(fs) == Messages(Seqs.Select(fs, IsInvalid))
  {
    if fs != [] {
      var init, last := fs[..|fs| - 1], fs[|fs| - 1];
      ErrorsOfInvalid(init);
      if IsInvalid(last) {
        assert Seqs.Select(fs, IsInvalid) == Seqs.Select(init, IsInvalid) + [last];
        assert Validate(last) == Some(Message(last));
        MessagesAppend(Seqs.Select(init, IsInvalid), last);
      } else {
        assert Seqs.Select(fs, IsInvalid) == Seqs.Select(init, IsInvalid);
      }
    }
  }

  predicate IsInvalid(f: Filter)
  {
    !IsValid(f)
  }

  /** The message reported for an invalid filter. */
  function Message(f: Filter): string
  {
    if f.field !in AllowedFields then "Invalid field: " + f.field
    else "Invalid operator: " + f.operator
  }

  function Messages(fs: seq<Filter>): seq<string>
  {
    if fs == [] then [] else [Message(fs[0])] + Messages(fs[1..])
  }

  lemma {:induction false} MessagesAppend(fs: seq<Filter>, f: Filter)
    ensures Messages(fs + [f]) == Messages(fs) + [Message(f)]
  {
    if fs != [] {
      assert (fs + [f])[1..] == fs[1..] + [f];
      MessagesAppend(fs[1..], f);
    }
  }

  /** The filters are accepted exactly when none is outside the allow-lists. */
  lemma {:induction false} NoErrorsIffAllValid(fs: seq<Filter>)
    ensures Errors(fs) == [] <==> forall i :: 0 <= i < |fs| ==> IsValid(fs[i])
  {
    if fs != [] {
      NoErrorsIffAllValid(fs[..|fs| - 1]);
      assert forall i :: 0 <= i < |fs| - 1 ==> fs[..|fs| - 1][i] == fs[i];
    }
  }

  /** A bad filter does not stop the builder: the errors and the conditions of
      two lists of filters are those of each list, one after the other. */
  lemma {:induction false} ErrorsAppend(fs1: seq<Filter>, fs2: seq<Filter>)
    ensures Errors(fs1 + fs2) == Errors(fs1) + Errors(fs2)
    decreases |fs2|
  {
    if fs2 == [] {
      assert fs1 + fs2 == fs1;
    } else {
      var init := fs2[..|fs2| - 1];
      assert (fs1 + fs2)[..|fs1 + fs2| - 1] == fs1 + init;
      ErrorsAppend(fs1, init);
    }
  }

  lemma {:induction false} ConditionsAppend(fs1: seq<Filter>, fs2: seq<Filter>, prefix: string)
    ensures Conditions(fs1 + fs2, prefix) == Conditions(fs1, prefix) + Conditions(fs2, prefix)
    decreases |fs2|
  {
    if fs2 == [] {
      assert fs1 + fs2 == fs1;
    } else {
      var init := fs2[..|fs2| - 1];
      assert (fs1 + fs2)[..|fs1 + fs2| - 1] == fs1 + init;
      ConditionsAppend(fs1, init, prefix);
    }
  }

  /** So the clause of two lists of filters is the clause of the first
      followed by the clause of the second. */
  lemma ClauseOfAppend(fs1: seq<Filter>, fs2: seq<Filter>, prefix: string)
    ensures Clause(Conditions(fs1 + fs2, prefix)) == Clause(Conditions(fs1, prefix)) + Clause(Conditions(fs2, prefix))
  {
    ConditionsAppend(fs1, fs2, prefix);
    ClauseAppend(Conditions(fs1, prefix), Conditions(fs2, prefix));
  }

  lemma {:induction false} JoinAppend(a: seq<string>, b: seq<string>, sep: string)
    requires |a| > 0 && |b| > 0
    ensures Join(a + b, sep) == Join(a, sep) + sep + Join(b, sep)
    decreases |b|
  {
    if |b| == 1 {
      assert (a + b)[..|a + b| - 1] == a;
    } else {
      var init := b[..|b| - 1];
      assert (a + b)[..|a + b| - 1] == a + init;
      JoinAppend(a, init, sep);
    }
  }

  lemma ClauseAppend(a: seq<string>, b: seq<string>)
    ensures Clause(a + b) == Clause(a) + Clause(b)
  {
    if a == [] {
      assert a + b == b;
    } else if b == [] {
      assert a + b == a;
    } else {
      JoinAppend(a, b, " AND ");
    }
  }

  /** The null checks bind nothing; every other valid filter binds its key. */
  lemma NullChecksBindNothing(f: Filter)
    requires IsValid(f)
    ensures Binding(f).None? <==> IsNullCheck(f)
    ensures f.operator == "is_null" ==> Condition("f", f) == f.field + " IS NULL"
    ensures f.operator == "is_not_null" ==> Condition("f", f) == f.field + " IS NOT NULL"
  {
  }

  /** List values are bound as they are; with any operator other than `in`
      they are excluded with `NOT IN`. */
  lemma ListsBoundUnchanged(prefix: string, f: Filter)
    requires IsValid(f) && !IsNullCheck(f) && f.value.Arr?
    ensures Binding(f) == Some(PArr(f.value.items))
    ensures Condition(prefix, f) == f.field + (if f.operator == "in" then " IN {" else " NOT IN {")
                                     + Key(prefix, f) + ":Array(String)}"
  {
  }

  /** A string value is bound as its escaped form with the `%` its operator
      adds: stripping those and un-escaping gives the value again. */
  lemma StringPatternsRoundTrip(f: Filter)
    requires IsValid(f) && !IsNullCheck(f) && f.value.Str?
    ensures Binding(f).Some? && Binding(f).value.PStr?
    ensures var p := Binding(f).value.s; var v := f.value.s;
      (if f.operator == "contains" || f.operator == "not_contains" then
         |p| >= 2 && p[0] == '%' && p[|p| - 1] == '%' && Unescape(p[1..|p| - 1]) == v
       else if f.operator == "starts_with" then
         |p| >= 1 && p[|p| - 1] == '%' && Unescape(p[..|p| - 1]) == v
       else if f.operator == "ends_with" then
         |p| >= 1 && p[0] == '%' && Unescape(p[1..]) == v
       else Unescape(p) == v)
  {
    var v := f.value.s;
    var e := Escape(v);
    UnescapeEscape(v);
    var p := Binding(f).value.s;
    if f.operator == "contains" || f.operator == "not_contains" {
      assert p[1..|p| - 1] == e;
    } else if f.operator == "starts_with" {
      assert p[..|p| - 1] == e;
    } else if f.operator == "ends_with" {
      assert p[1..] == e;
    }
  }

  /** The quirk of the operator dispatch: `in` with a single string compares
      with `!=`, and a list under `equals` is excluded with `NOT IN`. */
  lemma OperatorValueMismatch(prefix: string, field: string, v: string, items: seq<string>)
    requires field in AllowedFields
    ensures var f := Filter(field, "in", Str(v));
      Condition(prefix, f) == field + " != {" + Key(prefix, f) + ":String}"
    ensures var f := Filter(field, "equals", Arr(items));
      Condition(prefix, f) == field + " NOT IN {" + Key(prefix, f) + ":Array(String)}"
  {
  }

  /** Binding only adds or overwrites keys of valid, non-null filters; a key
      bound twice keeps the value of the later filter. */
  lemma {:induction false} BindKeys(values: map<string, ParamValue>, fs: seq<Filter>, prefix: string, k: string)
    ensures k in Bind(values, fs, prefix) <==>
      k in values || exists i :: 0 <= i < |fs| && IsValid(fs[i]) && !IsNullCheck(fs[i]) && Key(prefix, fs[i]) == k
    ensures k !in values || k in Bind(values, fs, prefix)
  {
    if fs != [] {
      var init := fs[..|fs| - 1];
      BindKeys(values, init, prefix, k);
      assert forall i :: 0 <= i < |init| ==> init[i] == fs[i];
      if k in Bind(values, fs, prefix) && k !in values {
        if k !in Bind(values, init, prefix) {
          assert IsValid(fs[|fs| - 1]) && !IsNullCheck(fs[|fs| - 1]) && Key(prefix, fs[|fs| - 1]) == k;
        }
      }
    }
  }

  lemma LastBindingWins(values: map<string, ParamValue>, fs: seq<Filter>, prefix: string, f: Filter)
    requires IsValid(f) && !IsNullCheck(f)
    ensures Bind(values, fs + [f], prefix)[Key(prefix, f)] == Binding(f).value
  {
    assert (fs + [f])[..|fs + [f]| - 1] == fs;
  }
}
