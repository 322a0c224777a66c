/** `processVisitorEvents` of `packages/rpc/src/lib/analytics-utils.ts`: the
    flat rows a funnel query returns are grouped into one timeline per
    visitor, with visitors in the order they first appear (the insertion
    order of a JavaScript `Map`) and each visitor's events in arrival order. */
module VisitorEvents {
  import opened Common

  /** A row of the funnel query: one visitor reaching one step. */
  datatype Row = Row(step_number: int, step_name: string, session_id: string,
                     anonymous_id: string, first_occurrence: int, referrer: Option<string>)

  datatype VisitorEvent = VisitorEvent(step_number: int, step_name: string,
                                       first_occurrence: int, referrer: Option<string>)

  /** A `Map<string, VisitorEvent[]>`: its keys in insertion order and its entries. */
  datatype Timelines = Timelines(order: seq<string>, events: map<string, seq<VisitorEvent>>)

  predicate Distinct<T(==)>(s: seq<T>)
  {
    forall i, j :: 0 <= i < j < |s| ==> s[i] != s[j]
  }

  /** What every `Map` satisfies: each key once, and exactly the keys listed. */
  predicate WellFormed(tl: Timelines)
  {
    Distinct(tl.order) && (forall v :: v in tl.order ==> v in tl.events)
    && (forall v :: v in tl.events ==> v in tl.order)
  }

  function EventOf(r: Row): VisitorEvent
  {
    VisitorEvent(r.step_number, r.step_name, r.first_occurrence, r.referrer)
  }

  /** The visitor ids in the order of their first row. */
  function FirstSeen(rows: seq<Row>): seq<string>
  {
    if rows == [] then []
    else
      var before := FirstSeen(rows[..|rows| - 1]);
      var v := rows[|rows| - 1].anonymous_id;
      if v in before then before else before + [v]
  }

  /** The events of visitor `v`, in the order of its rows. */
  function EventsOf(rows: seq<Row>, v: string): seq<VisitorEvent>
  {
    if rows == [] then []
    else
      var last := rows[|rows| - 1];
      EventsOf(rows[..|rows| - 1], v) + (if last.anonymous_id == v then [EventOf(last)] else [])
  }

  /** The grouping the source builds. */
  function Grouped(rows: seq<Row>): Timelines
  {
    Timelines(FirstSeen(rows), map v | v in FirstSeen(rows) :: EventsOf(rows, v))
  }

  method ProcessVisitorEvents(rows: seq<Row>) returns (tl: Timelines)
    ensures tl == Grouped(rows)
  {
    var order: seq<string> := [];
    var events: map<string, seq<VisitorEvent>> := map[];
    for i := 0 to |rows|
      invariant Timelines(order, events) == Grouped(rows[..i])
    {
      var e := rows[i];
      var existing := if e.anonymous_id in events then events[e.anonymous_id] else [];
      GroupedAppend(rows[..i], e);
      assert rows[..i + 1] == rows[..i] + [e];
      if e.anonymous_id !in events {
        order := order + [e.anonymous_id];
      }
      events := events[e.anonymous_id := existing + [EventOf(e)]];
    }
    assert rows[..|rows|] == rows;
    tl := Timelines(order, events);
  }

  lemma {:induction false} FirstSeenMeaning(rows: seq<Row>)
    ensures Distinct(FirstSeen(rows))
    ensures forall v :: v in FirstSeen(rows) <==> exists i :: 0 <= i < |rows| && rows[i].anonymous_id == v
  {
    if rows != [] {
      var init := rows[..|rows| - 1];
      FirstSeenMeaning(init);
      assert forall i :: 0 <= i < |init| ==> init[i] == rows[i];
      forall v | exists i :: 0 <= i < |rows| && rows[i].anonymous_id == v
        ensures v in FirstSeen(rows)
      {
        var i :| 0 <= i < |rows| && rows[i].anonymous_id == v;
        if i < |init| {
          assert init[i].anonymous_id == v;
        }
      }
    }
  }

  /** `EventsOf` is the filter of the rows by visitor, so it keeps their order
      and number; this lemma adds that a visitor has events exactly when it has
      a row, and that each event is one of its rows. */
  lemma {:induction false} EventsOfMeaning(rows: seq<Row>, v: string)
    ensures |EventsOf(rows, v)| > 0 <==> v in FirstSeen(rows)
    ensures forall e :: e in EventsOf(rows, v) ==> exists i :: 0 <= i < |rows| && rows[i].anonymous_id == v && EventOf(rows[i]) == e
  {
    if rows != [] {
      var init := rows[..|rows| - 1];
      EventsOfMeaning(init, v);
      assert forall i :: 0 <= i < |init| ==> init[i] == rows[i];
    }
  }

  lemma GroupedAppend(rows: seq<Row>, r: Row)
    ensures var g, v := Grouped(rows), r.anonymous_id;
      Grouped(rows + [r]) ==
      Timelines(if v in g.events then g.order else g.order + [v],
                g.events[v := (if v in g.events then g.events[v] else []) + [EventOf(r)]])
  {
    var g, v := Grouped(rows), r.anonymous_id;
    var rows' := rows + [r];
    assert rows'[..|rows'| - 1] == rows;
    var g' := Grouped(rows');
    if v !in g.events {
      EventsOfAbsent(rows, v);
    }
    var events' := g.events[v := (if v in g.events then g.events[v] else []) + [EventOf(r)]];
    assert g'.order == (if v in g.events then g.order else g.order + [v]);
    assert forall w :: w in g'.events <==> w in events';
    forall w | w in g'.events
      ensures g'.events[w] == events'[w]
    {
      assert EventsOf(rows', w) == EventsOf(rows, w) + (if v == w then [EventOf(r)] else []);
    }
  }

  lemma {:induction false} EventsOfAbsent(rows: seq<Row>, v: string)
    requires v !in FirstSeen(rows)
    ensures EventsOf(rows, v) == []
  {
    if rows != [] {
      var init := rows[..|rows| - 1];
      assert v !in FirstSeen(init);
      EventsOfAbsent(init, v);
    }
  }

  /** The grouping is a well-formed `Map`. */
  lemma GroupedWellFormed(rows: seq<Row>)
    ensures WellFormed(Grouped(rows))
  {
    FirstSeenMeaning(rows);
  }

  /** The number of events across the timelines listed in `order`. */
  function EventCount(order: seq<string>, events: map<string, seq<VisitorEvent>>): nat
  {
    if order == [] then 0
    else
      var v := order[|order| - 1];
      EventCount(order[..|order| - 1], events) + (if v in events then |events[v]| else 0)
  }

  lemma {:induction false} EventCountUnlisted(order: seq<string>, events: map<string, seq<VisitorEvent>>, v: string, evs: seq<VisitorEvent>)
    requires v !in order
    ensures EventCount(order, events[v := evs]) == EventCount(order, events)
  {
    if order != [] {
      EventCountUnlisted(order[..|order| - 1], events, v, evs);
    }
  }

  lemma {:induction false} EventCountGrow(order: seq<string>, events: map<string, seq<VisitorEvent>>, v: string, e: VisitorEvent)
    requires Distinct(order) && v in order && v in events
    ensures EventCount(order, events[v := events[v] + [e]]) == EventCount(order, events) + 1
  {
    var init, last := order[..|order| - 1], order[|order| - 1];
    assert forall i, j :: 0 <= i < j < |init| ==> init[i] == order[i] && init[j] == order[j];
    if last == v {
      assert v !in init;
      EventCountUnlisted(init, events, v, events[v] + [e]);
    } else {
      EventCountGrow(init, events, v, e);
    }
  }

  /** No row is lost or duplicated: the timelines hold as many events as
      there were rows. */
  lemma {:induction false} GroupingConservesRows(rows: seq<Row>)
    ensures EventCount(Grouped(rows).order, Grouped(rows).events) == |rows|
  {
    if rows != [] {
      var init, r := rows[..|rows| - 1], rows[|rows| - 1];
      assert rows == init + [r];
      GroupingConservesRows(init);
      GroupedAppend(init, r);
      GroupedWellFormed(init);
      var g, v := Grouped(init), r.anonymous_id;
      if v in g.events {
        EventCountGrow(g.order, g.events, v, EventOf(r));
      } else {
        var order', events' := g.order + [v], g.events[v := [] + [EventOf(r)]];
        assert order'[..|order'| - 1] == g.order;
        assert v !in g.order;
        EventCountUnlisted(g.order, g.events, v, [] + [EventOf(r)]);
        assert EventCount(order', events') == EventCount(g.order, events') + 1;
      }
    }
  }
}
