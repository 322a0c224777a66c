/** The referrer segmentation of `packages/rpc/src/lib/analytics-utils.ts`:
    `parseReferrer` normalises a referrer string, and
    `processFunnelAnalyticsByReferrer` groups the visitors by the domain of
    their first event's referrer, reruns the step counts on each group, drops
    the groups nobody entered and sorts the rest by entrants, largest first.
    URL hostname extraction (`new URL(...).hostname`, or `None` where the
    constructor throws) and the provider table are parameters. */
module Referrers {
  import opened Common
  import opened Text
  import Seqs
  import Metrics
  import FilterClause
  import opened VisitorEvents
  import opened StateMachine
  import FunnelStats

  /** An entry of the provider table: display name and type. */
  datatype Provider = Provider(name: string, kind: string)

  datatype ParsedReferrer = ParsedReferrer(name: string, kind: string, domain: string, url: string)

  const DirectReferrer: ParsedReferrer := ParsedReferrer("Direct", "direct", "", "")

  /** The markers of a visit without a referrer; only "(direct)" ignores case. */
  predicate IsDirectMarker(referrer: string)
  {
    referrer == "" || referrer == "Direct" || Lower(referrer) == "(direct)"
  }

  function ParseReferrer(referrer: string, hostOf: string -> Option<string>, providers: map<string, Provider>): ParsedReferrer
  {
    if IsDirectMarker(referrer) then DirectReferrer
    else
      var fullUrl := if StartsWith(referrer, "http://") || StartsWith(referrer, "https://") then referrer
                     else "https://" + referrer;
      match hostOf(fullUrl)
      case None => ParsedReferrer(referrer, "referrer", "", referrer)
      case Some(host) =>
        var hostname := Lower(host);
        var bare := if StartsWith(hostname, "www.") then hostname[4..] else hostname;
        if hostname in providers then ParsedReferrer(providers[hostname].name, providers[hostname].kind, bare, referrer)
        else ParsedReferrer(bare, "referrer", bare, referrer)
  }

  /** Exactly the direct markers parse to the Direct referrer; every other
      referrer keeps its text as `url` and a lower-case domain. */
  lemma ParseReferrerMeaning(referrer: string, hostOf: string -> Option<string>, providers: map<string, Provider>)
    ensures var p := ParseReferrer(referrer, hostOf, providers);
      (IsDirectMarker(referrer) <==> p == DirectReferrer) &&
      (!IsDirectMarker(referrer) ==> p.url == referrer) &&
      Lower(p.domain) == p.domain
  {
    var p := ParseReferrer(referrer, hostOf, providers);
    if !IsDirectMarker(referrer) {
      assert referrer != "";
      assert p.url == referrer;
      var fullUrl := if StartsWith(referrer, "http://") || StartsWith(referrer, "https://") then referrer
                     else "https://" + referrer;
      if hostOf(fullUrl).Some? {
        var hostname := Lower(hostOf(fullUrl).value);
        LowerIdempotent(hostOf(fullUrl).value);
        if StartsWith(hostname, "www.") {
          assert Lower(hostname[4..]) == Lower(hostname)[4..];
        }
      }
    }
  }

  /** Only "(direct)" is recognised in any case: "(DIRECT)" is the Direct
      referrer, while "direct" parses as an ordinary referrer host, which
      still lands in the "direct" group. */
  lemma DirectSpellings(hostOf: string -> Option<string>, providers: map<string, Provider>)
    requires hostOf("https://direct") == Some("direct") && "direct" !in providers
    ensures ParseReferrer("(DIRECT)", hostOf, providers) == DirectReferrer
    ensures ParseReferrer("direct", hostOf, providers) == ParsedReferrer("direct", "referrer", "direct", "direct")
    ensures GroupKey(ParseReferrer("direct", hostOf, providers)) == GroupKey(DirectReferrer) == "direct"
  {
    assert Lower("(DIRECT)") == "(direct)";
    assert !StartsWith("direct", "http://") && !StartsWith("direct", "https://");
    assert "https://" + "direct" == "https://direct";
    assert Lower("direct") == "direct";
    assert "direct"[..4] != "www." by {
      assert "direct"[0] == 'd';
    }
  }

  /** A referrer whose URL cannot be parsed has no domain. */
  lemma UnparseableHasNoDomain(referrer: string, hostOf: string -> Option<string>, providers: map<string, Provider>)
    requires !IsDirectMarker(referrer)
    requires hostOf(if StartsWith(referrer, "http://") || StartsWith(referrer, "https://") then referrer
                    else "https://" + referrer).None?
    ensures ParseReferrer(referrer, hostOf, providers) == ParsedReferrer(referrer, "referrer", "", referrer)
  {
  }

  // ---------------------------------------------------------------------
  // Grouping

  /** `events[0].referrer || "Direct"`. */
  function FirstReferrer(events: seq<VisitorEvent>): string
    requires |events| > 0
  {
    match events[0].referrer
    case None => "Direct"
    case Some(r) => if r == "" then "Direct" else r
  }

  /** `parsed.domain?.toLowerCase() || "direct"`. */
  function GroupKey(p: ParsedReferrer): string
  {
    if Lower(p.domain) == "" then "direct" else Lower(p.domain)
  }

  datatype Group = Group(parsed: ParsedReferrer, visitors: set<string>)

  /** The `groups` map: keys in insertion order and their entries. */
  datatype Groups = Groups(order: seq<string>, entries: map<string, Group>)

  predicate HasEvents(tl: Timelines, v: string)
  {
    v in tl.events && |tl.events[v]| > 0
  }

  function ParsedOf(tl: Timelines, v: string, hostOf: string -> Option<string>, providers: map<string, Provider>): ParsedReferrer
    requires HasEvents(tl, v)
  {
    ParseReferrer(FirstReferrer(tl.events[v]), hostOf, providers)
  }

  /** The group a visitor with events falls into. */
  function KeyOf(tl: Timelines, v: string, hostOf: string -> Option<string>, providers: map<string, Provider>): string
    requires HasEvents(tl, v)
  {
    GroupKey(ParsedOf(tl, v, hostOf, providers))
  }

  function AddToGroup(g: Groups, key: string, parsed: ParsedReferrer, v: string): Groups
  {
    if key in g.entries then Groups(g.order, g.entries[key := Group(g.entries[key].parsed, g.entries[key].visitors + {v})])
    else Groups(g.order + [key], g.entries[key := Group(parsed, {v})])
  }

  /** The groups after visiting `vs` in order. */
  function GroupsOf(tl: Timelines, vs: seq<string>, hostOf: string -> Option<string>, providers: map<string, Provider>): Groups
  {
    if vs == [] then Groups([], map[])
    else
      var g := GroupsOf(tl, vs[..|vs| - 1], hostOf, providers);
      var v := vs[|vs| - 1];
      if HasEvents(tl, v) then AddToGroup(g, KeyOf(tl, v, hostOf, providers), ParsedOf(tl, v, hostOf, providers), v)
      else g
  }

  lemma GroupsStep(tl: Timelines, vs: seq<string>, i: int, hostOf: string -> Option<string>, providers: map<string, Provider>)
    requires 0 <= i < |vs|
    ensures var g, v := GroupsOf(tl, vs[..i], hostOf, providers), vs[i];
      GroupsOf(tl, vs[..i + 1], hostOf, providers) ==
        if HasEvents(tl, v) then AddToGroup(g, KeyOf(tl, v, hostOf, providers), ParsedOf(tl, v, hostOf, providers), v) else g
  {
    assert vs[..i + 1][..i] == vs[..i];
  }

  /** The body of the grouping loop: a new key is appended with the parsed
      referrer of the visitor that opens it; the visitor joins its group. */
  method JoinGroup(order: seq<string>, entries: map<string, Group>, key: string, parsed: ParsedReferrer, v: string)
    returns (order': seq<string>, entries': map<string, Group>)
    ensures Groups(order', entries') == AddToGroup(Groups(order, entries), key, parsed, v)
  {
    order', entries' := order, entries;
    if key !in entries' {
      order' := order' + [key];
      entries' := entries'[key := Group(parsed, {})];
    }
    entries' := entries'[key := Group(entries'[key].parsed, entries'[key].visitors + {v})];
    if key !in entries {
      assert {} + {v} == {v};
      assert entries' == entries[key := Group(parsed, {v})];
    }
  }

  method GroupByReferrer(tl: Timelines, hostOf: string -> Option<string>, providers: map<string, Provider>)
    returns (groups: Groups)
    requires forall v :: v in tl.order ==> v in tl.events
    ensures groups == GroupsOf(tl, tl.order, hostOf, providers)
  {
    var order: seq<string> := [];
    var entries: map<string, Group> := map[];
    for i := 0 to |tl.order|
      invariant Groups(order, entries) == GroupsOf(tl, tl.order[..i], hostOf, providers)
    {
      var visitorId := tl.order[i];
      var events := tl.events[visitorId];
      GroupsStep(tl, tl.order, i, hostOf, providers);
      if |events| == 0 {
        continue;
      }
      var ref := FirstReferrer(events);
      var parsed := ParseReferrer(ref, hostOf, providers);
      var key := if Lower(parsed.domain) == "" then "direct" else Lower(parsed.domain);
      assert key == KeyOf(tl, visitorId, hostOf, providers);
      order, entries := JoinGroup(order, entries, key, parsed, visitorId);
    }
    assert tl.order[..|tl.order|] == tl.order;
    groups := Groups(order, entries);
  }

  /** The groups form a `Map`: each key listed once, exactly the keys present. */
  lemma {:induction false} GroupsWellFormed(tl: Timelines, vs: seq<string>, hostOf: string -> Option<string>, providers: map<string, Provider>)
    ensures var g := GroupsOf(tl, vs, hostOf, providers);
      Distinct(g.order) && forall key :: key in g.entries <==> key in g.order
  {
    if vs != [] {
      GroupsWellFormed(tl, vs[..|vs| - 1], hostOf, providers);
    }
  }

  /** Each visitor with events is in exactly one group, the one keyed by its
      referrer's lower-cased domain or "direct"; visitors without events are
      in none, and only the keys of some visitor have a group. */
  lemma {:induction false} GroupsPartition(tl: Timelines, vs: seq<string>, hostOf: string -> Option<string>,
                                           providers: map<string, Provider>, key: string, v: string)
    ensures var g := GroupsOf(tl, vs, hostOf, providers);
      key in g.entries ==>
        (v in g.entries[key].visitors <==> v in vs && HasEvents(tl, v) && KeyOf(tl, v, hostOf, providers) == key)
    ensures var g := GroupsOf(tl, vs, hostOf, providers);
      v in vs && HasEvents(tl, v) ==> KeyOf(tl, v, hostOf, providers) in g.entries
    ensures (forall j :: 0 <= j < |vs| && HasEvents(tl, vs[j]) ==> KeyOf(tl, vs[j], hostOf, providers) != key) ==>
      key !in GroupsOf(tl, vs, hostOf, providers).entries
  {
    if vs != [] {
      var init, w := vs[..|vs| - 1], vs[|vs| - 1];
      GroupsPartition(tl, init, hostOf, providers, key, v);
      if HasEvents(tl, v) {
        GroupsPartition(tl, init, hostOf, providers, KeyOf(tl, v, hostOf, providers), v);
      }
      assert vs == init + [w];
      assert forall j :: 0 <= j < |init| ==> init[j] == vs[j];
    }
  }

  /** Each group keeps the referrer parsed for its first visitor. */
  lemma {:induction false} GroupParsedIsFirst(tl: Timelines, vs: seq<string>, hostOf: string -> Option<string>,
                                              providers: map<string, Provider>, i: int)
    requires 0 <= i < |vs| && HasEvents(tl, vs[i])
    requires forall j :: 0 <= j < i && HasEvents(tl, vs[j]) ==>
      KeyOf(tl, vs[j], hostOf, providers) != KeyOf(tl, vs[i], hostOf, providers)
    ensures var g := GroupsOf(tl, vs, hostOf, providers);
      KeyOf(tl, vs[i], hostOf, providers) in g.entries &&
      g.entries[KeyOf(tl, vs[i], hostOf, providers)].parsed == ParsedOf(tl, vs[i], hostOf, providers)
  {
    var init := vs[..|vs| - 1];
    var key := KeyOf(tl, vs[i], hostOf, providers);
    assert forall j :: 0 <= j < |init| ==> init[j] == vs[j];
    if i < |init| {
      GroupParsedIsFirst(tl, init, hostOf, providers, i);
    } else {
      GroupsPartition(tl, init, hostOf, providers, key, vs[i]);
      assert key !in GroupsOf(tl, init, hostOf, providers).entries;
    }
  }

  // ---------------------------------------------------------------------
  // Per-referrer statistics

  datatype ReferrerAnalytics = ReferrerAnalytics(referrer: string, referrer_parsed: ParsedReferrer,
                                                 total_users: int, completed_users: int, conversion_rate: int)

  /** The entry of one group, or none when nobody in it reached step 1. */
  function Segment(tl: Timelines, key: string, group: Group, totalSteps: int): seq<ReferrerAnalytics>
  {
    var counts := CountMap(tl, tl.order, Some(group.visitors));
    var total := Size(counts, 1);
    var completed := Size(counts, totalSteps);
    if total == 0 then [] else [ReferrerAnalytics(key, group.parsed, total, completed, Metrics.Pct(completed, total))]
  }

  /** The entries of the groups `keys`, in group order. */
  function Segments(tl: Timelines, g: Groups, keys: seq<string>, totalSteps: int): seq<ReferrerAnalytics>
  {
    if keys == [] then []
    else
      var key := keys[|keys| - 1];
      Segments(tl, g, keys[..|keys| - 1], totalSteps) +
      (if key in g.entries then Segment(tl, key, g.entries[key], totalSteps) else [])
  }

  lemma SegmentsStep(tl: Timelines, g: Groups, keys: seq<string>, i: int, totalSteps: int)
    requires 0 <= i < |keys| && keys[i] in g.entries
    ensures Segments(tl, g, keys[..i + 1], totalSteps) == Segments(tl, g, keys[..i], totalSteps) + Segment(tl, keys[i], g.entries[keys[i]], totalSteps)
  {
    assert keys[..i + 1][..i] == keys[..i];
  }

  method ReferrerStats(tl: Timelines, groups: Groups, totalSteps: int) returns (analytics: seq<ReferrerAnalytics>)
    requires forall v :: v in tl.order ==> v in tl.events
    requires forall key :: key in groups.order ==> key in groups.entries
    ensures analytics == Segments(tl, groups, groups.order, totalSteps)
  {
    analytics := [];
    for i := 0 to |groups.order|
      invariant analytics == Segments(tl, groups, groups.order[..i], totalSteps)
    {
      var key := groups.order[i];
      var group := groups.entries[key];
      SegmentsStep(tl, groups, groups.order, i, totalSteps);
      var counts := CalculateStepCounts(tl, Some(group.visitors));
      var total := Size(counts, 1);
      if total == 0 {
        continue;
      }
      var completed := Size(counts, totalSteps);
      analytics := analytics + [ReferrerAnalytics(key, group.parsed, total, completed, Metrics.Pct(completed, total))];
    }
    assert groups.order[..|groups.order|] == groups.order;
  }

  /** Every entry is a group somebody entered: its entrants are the group's
      visitors reaching step 1, its completions those reaching the last step,
      no more than entered, and its rate is the percentage of entrants who
      completed. */
  lemma {:induction false} SegmentsMeaning(tl: Timelines, g: Groups, keys: seq<string>, totalSteps: int, x: ReferrerAnalytics)
    requires x in Segments(tl, g, keys, totalSteps)
    ensures x.referrer in keys && x.referrer in g.entries
    ensures x.referrer_parsed == g.entries[x.referrer].parsed
    ensures x.total_users == |ReachedSet(tl, Some(g.entries[x.referrer].visitors), 1)| > 0
    ensures x.completed_users == |ReachedSet(tl, Some(g.entries[x.referrer].visitors), totalSteps)|
    ensures 0 <= x.completed_users <= x.total_users
    ensures x.conversion_rate == Metrics.Pct(x.completed_users, x.total_users)
    ensures 0 <= x.conversion_rate <= 10000
  {
    var init, key := keys[..|keys| - 1], keys[|keys| - 1];
    if x in Segments(tl, g, init, totalSteps) {
      SegmentsMeaning(tl, g, init, totalSteps, x);
    } else {
      var group := g.entries[key];
      var filter := Some(group.visitors);
      CountMapMeaning(tl, tl.order, filter, 1);
      CountMapMeaning(tl, tl.order, filter, totalSteps);
      if totalSteps >= 1 {
        FunnelStats.ReachedAntitone(tl, filter, 1, totalSteps);
      }
      Metrics.PctOfPart(x.completed_users, x.total_users);
    }
  }

  /** A group has an entry exactly when one of its visitors reached step 1. */
  lemma {:induction false} SegmentsKeep(tl: Timelines, g: Groups, keys: seq<string>, totalSteps: int, key: string)
    requires Distinct(keys) && key in keys && key in g.entries
    ensures (exists x :: x in Segments(tl, g, keys, totalSteps) && x.referrer == key) <==>
      ReachedSet(tl, Some(g.entries[key].visitors), 1) != {}
  {
    var init, last := keys[..|keys| - 1], keys[|keys| - 1];
    assert forall i, j :: 0 <= i < j < |init| ==> init[i] == keys[i] && init[j] == keys[j];
    CountMapMeaning(tl, tl.order, Some(g.entries[key].visitors), 1);
    if last == key {
      assert key !in init;
      forall x | x in Segments(tl, g, init, totalSteps)
        ensures x.referrer != key
      {
        SegmentsMeaning(tl, g, init, totalSteps, x);
      }
      var seg := Segment(tl, key, g.entries[key], totalSteps);
      assert Segments(tl, g, keys, totalSteps) == Segments(tl, g, init, totalSteps) + seg;
      if seg != [] {
        assert seg[0] in Segments(tl, g, keys, totalSteps);
      }
    } else {
      SegmentsKeep(tl, g, init, totalSteps, key);
      if last in g.entries {
        CountMapMeaning(tl, tl.order, Some(g.entries[last].visitors), 1);
      }
    }
  }

  // ---------------------------------------------------------------------
  // The assembled result

  /** `(a, b) => b.total_users - a.total_users`, as an ascending key. */
  function NegTotal(x: ReferrerAnalytics): int
  {
    -x.total_users
  }

  function ByReferrer(steps: seq<FunnelStats.AnalyticsStep>, tl: Timelines, hostOf: string -> Option<string>,
                      providers: map<string, Provider>): seq<ReferrerAnalytics>
  {
    var g := GroupsOf(tl, tl.order, hostOf, providers);
    Seqs.SortBy(Segments(tl, g, g.order, |steps|), NegTotal)
  }

  method ProcessFunnelAnalyticsByReferrer(steps: seq<FunnelStats.AnalyticsStep>, filters: seq<FilterClause.Filter>,
                                          params: FilterClause.Params, rows: seq<Row>,
                                          hostOf: string -> Option<string>, providers: map<string, Provider>)
    returns (r: Result<seq<ReferrerAnalytics>, ApiError>)
    modifies params
    ensures r.Failure? <==> FilterClause.Errors(filters) != []
    ensures r.Failure? ==> r.error == FunnelStats.InvalidFilters(FilterClause.Errors(filters))
    ensures r.Success? ==> r.value == ByReferrer(steps, Grouped(rows), hostOf, providers)
    ensures params.values == FilterClause.Bind(old(params.values), filters, "f")
  {
    var conditions, errors := FilterClause.BuildFilterConditions(filters, "f", params);
    if |errors| > 0 {
      return Failure(FunnelStats.InvalidFilters(errors));
    }
    var visitorEvents := ProcessVisitorEvents(rows);
    GroupedWellFormed(rows);
    var groups := GroupByReferrer(visitorEvents, hostOf, providers);
    GroupsWellFormed(visitorEvents, visitorEvents.order, hostOf, providers);
    var analytics := ReferrerStats(visitorEvents, groups, |steps|);
    r := Success(Seqs.SortBy(analytics, NegTotal));
  }

  /** The result lists the groups somebody entered, largest first, with ties in
      group order; every entry counts the visitors of its group. */
  lemma ByReferrerMeaning(steps: seq<FunnelStats.AnalyticsStep>, tl: Timelines, hostOf: string -> Option<string>,
                          providers: map<string, Provider>)
    ensures var out, g := ByReferrer(steps, tl, hostOf, providers), GroupsOf(tl, tl.order, hostOf, providers);
      var segs := Segments(tl, g, g.order, |steps|);
      multiset(out) == multiset(segs) &&
      (forall i, j :: 0 <= i < j < |out| ==> out[i].total_users >= out[j].total_users) &&
      (forall t :: Seqs.WithKey(out, NegTotal, t) == Seqs.WithKey(segs, NegTotal, t)) &&
      (forall x :: x in out ==> (x.referrer in g.entries && 0 < x.total_users &&
         x.total_users == |ReachedSet(tl, Some(g.entries[x.referrer].visitors), 1)| &&
         x.completed_users == |ReachedSet(tl, Some(g.entries[x.referrer].visitors), |steps|)| &&
         0 <= x.completed_users <= x.total_users &&
         x.conversion_rate == Metrics.Pct(x.completed_users, x.total_users)))
  {
    var g := GroupsOf(tl, tl.order, hostOf, providers);
    var segs := Segments(tl, g, g.order, |steps|);
    var out := Seqs.SortBy(segs, NegTotal);
    Seqs.SortByIsSort(segs, NegTotal);
    forall i, j | 0 <= i < j < |out| ensures out[i].total_users >= out[j].total_users {
      assert NegTotal(out[i]) <= NegTotal(out[j]);
    }
    forall t ensures Seqs.WithKey(out, NegTotal, t) == Seqs.WithKey(segs, NegTotal, t) {
      Seqs.SortByIsStable(segs, NegTotal, t);
    }
    forall x | x in out
      ensures x.referrer in g.entries && 0 < x.total_users
      ensures x.total_users == |ReachedSet(tl, Some(g.entries[x.referrer].visitors), 1)|
      ensures x.completed_users == |ReachedSet(tl, Some(g.entries[x.referrer].visitors), |steps|)|
      ensures 0 <= x.completed_users <= x.total_users
      ensures x.conversion_rate == Metrics.Pct(x.completed_users, x.total_users)
    {
      assert x in multiset(segs);
      SegmentsMeaning(tl, g, g.order, |steps|, x);
    }
  }

  // ---------------------------------------------------------------------
  // Conservation of entrants

  /** The sum of `total_users` over a list of entries. */
  function TotalUsers(s: seq<ReferrerAnalytics>): int
  {
    if s == [] then 0 else s[0].total_users + TotalUsers(s[1..])
  }

  lemma {:induction false} TotalUsersAppend(a: seq<ReferrerAnalytics>, b: seq<ReferrerAnalytics>)
    ensures TotalUsers(a + b) == TotalUsers(a) + TotalUsers(b)
  {
    if a == [] {
      assert a + b == b;
    } else {
      assert (a + b)[0] == a[0];
      assert (a + b)[1..] == a[1..] + b;
      TotalUsersAppend(a[1..], b);
    }
  }

  lemma {:induction false} TotalUsersInsert(x: ReferrerAnalytics, s: seq<ReferrerAnalytics>)
    ensures TotalUsers(Seqs.InsertBy(x, s, NegTotal)) == x.total_users + TotalUsers(s)
  {
    var r := Seqs.InsertBy(x, s, NegTotal);
    if s == [] || NegTotal(x) <= NegTotal(s[0]) {
      assert r[1..] == s;
    } else {
      TotalUsersInsert(x, s[1..]);
      assert r[1..] == Seqs.InsertBy(x, s[1..], NegTotal);
    }
  }

  /** Sorting the entries keeps the sum of their totals. */
  lemma {:induction false} TotalUsersSort(s: seq<ReferrerAnalytics>)
    ensures TotalUsers(Seqs.SortBy(s, NegTotal)) == TotalUsers(s)
  {
    if s != [] {
      TotalUsersSort(s[1..]);
      TotalUsersInsert(s[0], Seqs.SortBy(s[1..], NegTotal));
    }
  }

  /** The visitors of the groups `keys`. */
  function Covered(g: Groups, keys: seq<string>): set<string>
  {
    if keys == [] then {}
    else
      var key := keys[|keys| - 1];
      Covered(g, keys[..|keys| - 1]) + (if key in g.entries then g.entries[key].visitors else {})
  }

  lemma {:induction false} CoveredMeaning(g: Groups, keys: seq<string>, v: string)
    ensures v in Covered(g, keys) <==> exists key :: key in keys && key in g.entries && v in g.entries[key].visitors
  {
    if keys != [] {
      var init := keys[..|keys| - 1];
      CoveredMeaning(g, init, v);
      assert keys == init + [keys[|keys| - 1]];
    }
  }

  /** No visitor is in two groups. */
  predicate DisjointGroups(g: Groups)
  {
    forall k1, k2, v ::
      (k1 in g.entries && k2 in g.entries && v in g.entries[k1].visitors && v in g.entries[k2].visitors) ==> k1 == k2
  }

  /** A group's entry counts its step-1 visitors, and none without them. */
  lemma SegmentTotal(tl: Timelines, key: string, group: Group, totalSteps: int)
    ensures TotalUsers(Segment(tl, key, group, totalSteps)) == |ReachedSet(tl, None, 1) * group.visitors|
  {
    CountMapMeaning(tl, tl.order, Some(group.visitors), 1);
    FilteredCounts(tl, group.visitors, 1);
  }

  /** The part of `r` in `a + b`, counted as the parts in `a` and in `b`. */
  lemma DisjointMeetSize(r: set<string>, a: set<string>, b: set<string>)
    requires a * b == {}
    ensures r * (a + b) == r * a + r * b
    ensures |r * (a + b)| == |r * a| + |r * b|
  {
    assert (r * a) * (r * b) == {};
  }

  /** A group not among `keys` shares no visitor with their groups. */
  lemma CoveredDisjoint(g: Groups, keys: seq<string>, key: string)
    requires key !in keys && key in g.entries && DisjointGroups(g)
    ensures Covered(g, keys) * g.entries[key].visitors == {}
  {
    forall v | v in Covered(g, keys)
      ensures v !in g.entries[key].visitors
    {
      CoveredMeaning(g, keys, v);
    }
  }

  lemma SegmentsCoveredLast(tl: Timelines, g: Groups, keys: seq<string>, totalSteps: int)
    requires keys != [] && keys[|keys| - 1] in g.entries
    ensures var init, key := keys[..|keys| - 1], keys[|keys| - 1];
      Segments(tl, g, keys, totalSteps) == Segments(tl, g, init, totalSteps) + Segment(tl, key, g.entries[key], totalSteps) &&
      Covered(g, keys) == Covered(g, init) + g.entries[key].visitors
  {
  }

  /** Adding the entry of a group not yet listed adds its step-1 visitors. */
  lemma SegmentsTotalStep(tl: Timelines, g: Groups, keys: seq<string>, totalSteps: int)
    requires keys != [] && keys[|keys| - 1] !in keys[..|keys| - 1] && DisjointGroups(g)
    requires var init := keys[..|keys| - 1];
      TotalUsers(Segments(tl, g, init, totalSteps)) == |ReachedSet(tl, None, 1) * Covered(g, init)|
    ensures TotalUsers(Segments(tl, g, keys, totalSteps)) == |ReachedSet(tl, None, 1) * Covered(g, keys)|
  {
    var init, key := keys[..|keys| - 1], keys[|keys| - 1];
    var before := Segments(tl, g, init, totalSteps);
    if key in g.entries {
      var seg := Segment(tl, key, g.entries[key], totalSteps);
      var V := g.entries[key].visitors;
      var R, C := ReachedSet(tl, None, 1), Covered(g, init);
      SegmentsCoveredLast(tl, g, keys, totalSteps);
      TotalUsersAppend(before, seg);
      SegmentTotal(tl, key, g.entries[key], totalSteps);
      CoveredDisjoint(g, init, key);
      DisjointMeetSize(R, C, V);
      calc {
        TotalUsers(Segments(tl, g, keys, totalSteps));
        TotalUsers(before) + TotalUsers(seg);
        |R * C| + |R * V|;
        |R * (C + V)|;
      }
    } else {
      assert Segments(tl, g, keys, totalSteps) == before + [];
      assert before + [] == before;
      assert Covered(g, keys) == Covered(g, init) + {};
    }
  }

  /** With each key listed once and no visitor in two groups, the totals of
      the entries of `keys` count the step-1 visitors of those groups. */
  lemma {:induction false} SegmentsTotal(tl: Timelines, g: Groups, keys: seq<string>, totalSteps: int)
    requires Distinct(keys) && DisjointGroups(g)
    ensures TotalUsers(Segments(tl, g, keys, totalSteps)) == |ReachedSet(tl, None, 1) * Covered(g, keys)|
  {
    if keys != [] {
      var init, key := keys[..|keys| - 1], keys[|keys| - 1];
      assert forall i, j :: 0 <= i < j < |init| ==> init[i] == keys[i] && init[j] == keys[j];
      assert key !in init;
      SegmentsTotal(tl, g, init, totalSteps);
      SegmentsTotalStep(tl, g, keys, totalSteps);
    }
  }

  /** Every visitor who reached step 1 is counted in exactly one entry: the
      totals of the breakdown add up to the step-1 visitors of the funnel. */
  lemma ReferrerTotalsConserved(steps: seq<FunnelStats.AnalyticsStep>, tl: Timelines,
                                hostOf: string -> Option<string>, providers: map<string, Provider>)
    ensures TotalUsers(ByReferrer(steps, tl, hostOf, providers)) == |ReachedSet(tl, None, 1)|
  {
    var g := GroupsOf(tl, tl.order, hostOf, providers);
    var segs := Segments(tl, g, g.order, |steps|);
    TotalUsersSort(segs);
    GroupsWellFormed(tl, tl.order, hostOf, providers);
    forall k1, k2, v | k1 in g.entries && k2 in g.entries && v in g.entries[k1].visitors && v in g.entries[k2].visitors
      ensures k1 == k2
    {
      GroupsPartition(tl, tl.order, hostOf, providers, k1, v);
      GroupsPartition(tl, tl.order, hostOf, providers, k2, v);
    }
    SegmentsTotal(tl, g, g.order, |steps|);
    var R := ReachedSet(tl, None, 1);
    forall v | v in R
      ensures v in Covered(g, g.order)
    {
      assert |tl.events[v]| > 0;
      GroupsPartition(tl, tl.order, hostOf, providers, KeyOf(tl, v, hostOf, providers), v);
      CoveredMeaning(g, g.order, v);
    }
    assert R * Covered(g, g.order) == R;
  }
}
