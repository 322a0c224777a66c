/** The funnel state machine of `packages/rpc/src/lib/analytics-utils.ts`:
    each visitor's events are sorted by time and scanned with an expected
    step that starts at 1 and advances only on an event of exactly that step.
    `calculateStepCounts` collects the visitors reaching each step; the
    timing loop of `processFunnelAnalytics` collects the time between
    consecutive matched steps and from the first to the last step. */
module StateMachine {
  import opened Common
  import Seqs
  import opened VisitorEvents

  function TimeOf(e: VisitorEvent): int
  {
    e.first_occurrence
  }

  /** `events.sort((a, b) => a.first_occurrence - b.first_occurrence)`. */
  function SortByTime(evs: seq<VisitorEvent>): seq<VisitorEvent>
  {
    Seqs.SortBy(evs, TimeOf)
  }

  /** The times of the events the scan matches, one per step reached:
      an event matches when its step is one more than the steps matched so far. */
  function MatchTimes(evs: seq<VisitorEvent>): seq<int>
  {
    if evs == [] then []
    else
      var t := MatchTimes(evs[..|evs| - 1]);
      var last := evs[|evs| - 1];
      if last.step_number == |t| + 1 then t + [last.first_occurrence] else t
  }

  /** The number of steps a visitor reaches. */
  function Progress(evs: seq<VisitorEvent>): nat
  {
    |MatchTimes(SortByTime(evs))|
  }

  function StepNumbers(evs: seq<VisitorEvent>): seq<int>
  {
    if evs == [] then [] else StepNumbers(evs[..|evs| - 1]) + [evs[|evs| - 1].step_number]
  }

  /** The steps 1, 2, ..., k. */
  function Ladder(k: nat): seq<int>
  {
    seq(k, i => i + 1)
  }

  // ---------------------------------------------------------------------
  // The scan

  /** The scan reaches step `k` exactly when the steps 1..k occur, in this
      order, among the events: in-order progression and nothing else. */
  lemma {:induction false} ReachesIffLadder(evs: seq<VisitorEvent>, k: nat)
    ensures k <= |MatchTimes(evs)| <==> Seqs.IsSubseq(Ladder(k), StepNumbers(evs))
  {
    if evs != [] && k > 0 {
      var init, e := evs[..|evs| - 1], evs[|evs| - 1];
      ReachesIffLadder(init, k);
      ReachesIffLadder(init, k - 1);
      assert StepNumbers(evs)[..|StepNumbers(evs)| - 1] == StepNumbers(init);
      assert Ladder(k)[..k - 1] == Ladder(k - 1);
    }
  }

  lemma MatchTimesStep(evs: seq<VisitorEvent>, j: int)
    requires 0 <= j < |evs|
    ensures var t := MatchTimes(evs[..j]);
      MatchTimes(evs[..j + 1]) == if evs[j].step_number == |t| + 1 then t + [evs[j].first_occurrence] else t
  {
    assert evs[..j + 1][..j] == evs[..j];
  }

  lemma MatchTimesAdvance(evs: seq<VisitorEvent>, j: int)
    requires 0 <= j < |evs| && evs[j].step_number == |MatchTimes(evs[..j])| + 1
    ensures MatchTimes(evs[..j + 1]) == MatchTimes(evs[..j]) + [evs[j].first_occurrence]
  {
    MatchTimesStep(evs, j);
  }

  lemma MatchTimesSkip(evs: seq<VisitorEvent>, j: int)
    requires 0 <= j < |evs| && evs[j].step_number != |MatchTimes(evs[..j])| + 1
    ensures MatchTimes(evs[..j + 1]) == MatchTimes(evs[..j])
  {
    MatchTimesStep(evs, j);
  }

  lemma {:induction false} MatchTimesCongruent(a: seq<VisitorEvent>, b: seq<VisitorEvent>, u: seq<VisitorEvent>)
    requires MatchTimes(a) == MatchTimes(b)
    ensures MatchTimes(a + u) == MatchTimes(b + u)
  {
    if u == [] {
      assert a + u == a && b + u == b;
    } else {
      var init := u[..|u| - 1];
      MatchTimesCongruent(a, b, init);
      assert (a + u)[..|a + u| - 1] == a + init;
      assert (b + u)[..|b + u| - 1] == b + init;
    }
  }

  /** An event whose step is not the expected one changes nothing, whatever
      follows it. */
  lemma IgnoredEventChangesNothing(a: seq<VisitorEvent>, e: VisitorEvent, u: seq<VisitorEvent>)
    requires e.step_number != |MatchTimes(a)| + 1
    ensures MatchTimes(a + [e] + u) == MatchTimes(a + u)
  {
    assert (a + [e])[..|a|] == a;
    MatchTimesCongruent(a + [e], a, u);
  }

  lemma MatchTimesAreEventTimes(evs: seq<VisitorEvent>)
    ensures forall x :: x in MatchTimes(evs) ==> exists i :: 0 <= i < |evs| && evs[i].first_occurrence == x
  {
    if evs != [] {
      var init := evs[..|evs| - 1];
      MatchTimesAreEventTimes(init);
      assert forall i :: 0 <= i < |init| ==> init[i] == evs[i];
    }
  }

  predicate Ascending(t: seq<int>)
  {
    forall i, j :: 0 <= i < j < |t| ==> t[i] <= t[j]
  }

  /** On events sorted by time the matched times never decrease. */
  lemma {:induction false} MatchTimesAscending(evs: seq<VisitorEvent>)
    requires Seqs.SortedBy(evs, TimeOf)
    ensures Ascending(MatchTimes(evs))
  {
    if evs != [] {
      var init, e := evs[..|evs| - 1], evs[|evs| - 1];
      assert Seqs.SortedBy(init, TimeOf);
      MatchTimesAscending(init);
      MatchTimesAreEventTimes(init);
      var t := MatchTimes(init);
      forall x | x in t ensures x <= e.first_occurrence {
        var i :| 0 <= i < |init| && init[i].first_occurrence == x;
        assert TimeOf(evs[i]) <= TimeOf(evs[|evs| - 1]);
      }
      if e.step_number == |t| + 1 {
        forall i, j | 0 <= i < j < |t| + 1 ensures (t + [e.first_occurrence])[i] <= (t + [e.first_occurrence])[j] {
          if j == |t| {
            assert t[i] in t;
          }
        }
      }
    }
  }

  /** Time-ordered events of steps 1, 3, 2 reach step 2 but not step 3: the
      step-3 event came too early and is not revisited. Steps 1, 2, 3 reach step 3. */
  lemma OutOfOrderStepsIgnored(a: VisitorEvent, b: VisitorEvent, c: VisitorEvent)
    requires a.first_occurrence < b.first_occurrence < c.first_occurrence
    requires a.step_number == 1
    ensures b.step_number == 3 && c.step_number == 2 ==> Progress([a, b, c]) == 2
    ensures b.step_number == 2 && c.step_number == 3 ==> Progress([a, b, c]) == 3
  {
    var evs := [a, b, c];
    assert Seqs.SortedBy(evs, TimeOf);
    Seqs.SortBySortedIsIdentity(evs, TimeOf);
    assert evs[..2] == [a, b] && [a, b][..1] == [a] && [a][..0] == [];
    assert MatchTimes([a]) == [a.first_occurrence];
    if b.step_number == 3 && c.step_number == 2 {
      assert MatchTimes([a, b]) == [a.first_occurrence];
      assert MatchTimes(evs) == [a.first_occurrence, c.first_occurrence];
    }
    if b.step_number == 2 && c.step_number == 3 {
      assert MatchTimes([a, b]) == [a.first_occurrence, b.first_occurrence];
      assert MatchTimes(evs) == [a.first_occurrence, b.first_occurrence, c.first_occurrence];
    }
  }

  predicate HasStep(evs: seq<VisitorEvent>, n: int)
  {
    exists i :: 0 <= i < |evs| && evs[i].step_number == n
  }

  /** Reordering the events does not change which steps occur. */
  lemma HasStepReordered(a: seq<VisitorEvent>, b: seq<VisitorEvent>, n: int)
    requires multiset(a) == multiset(b)
    requires HasStep(a, n)
    ensures HasStep(b, n)
  {
    var i :| 0 <= i < |a| && a[i].step_number == n;
    assert a[i] in multiset(b);
    var j :| 0 <= j < |b| && b[j] == a[i];
  }

  lemma HasStepIffListed(evs: seq<VisitorEvent>, n: int)
    ensures HasStep(evs, n) <==> n in StepNumbers(evs)
  {
    StepNumbersMeaning(evs);
    if n in StepNumbers(evs) {
      var j :| 0 <= j < |StepNumbers(evs)| && StepNumbers(evs)[j] == n;
      assert evs[j].step_number == n;
    }
  }

  /** Sorting by time first, reaching step 1 means having an event of step 1. */
  lemma ReachesFirstStep(evs: seq<VisitorEvent>)
    ensures Progress(evs) >= 1 <==> HasStep(evs, 1)
  {
    var sorted := SortByTime(evs);
    Seqs.SortByIsSort(evs, TimeOf);
    ReachesIffLadder(sorted, 1);
    assert Ladder(1) == [1];
    SubseqSingleton(1, StepNumbers(sorted));
    HasStepIffListed(sorted, 1);
    if HasStep(evs, 1) {
      HasStepReordered(evs, sorted, 1);
    }
    if HasStep(sorted, 1) {
      HasStepReordered(sorted, evs, 1);
    }
  }

  lemma StepNumbersMeaning(evs: seq<VisitorEvent>)
    ensures |StepNumbers(evs)| == |evs|
    ensures forall i :: 0 <= i < |evs| ==> StepNumbers(evs)[i] == evs[i].step_number
  {
    if evs != [] {
      StepNumbersMeaning(evs[..|evs| - 1]);
    }
  }

  lemma {:induction false} SubseqSingleton(x: int, s: seq<int>)
    ensures Seqs.IsSubseq([x], s) <==> x in s
  {
    if s != [] {
      SubseqSingleton(x, s[..|s| - 1]);
      assert [x][..0] == [];
      assert s == s[..|s| - 1] + [s[|s| - 1]];
    }
  }

  // ---------------------------------------------------------------------
  // Step counts

  predicate Admits(filter: Option<set<string>>, v: string)
  {
    filter.None? || v in filter.value
  }

  /** The visitors among `vs` that the filter admits and that reach step `k`. */
  function ReachedIn(tl: Timelines, vs: seq<string>, filter: Option<set<string>>, k: int): set<string>
  {
    set v | v in vs && v in tl.events && Admits(filter, v) && 1 <= k <= Progress(tl.events[v])
  }

  function ReachedSet(tl: Timelines, filter: Option<set<string>>, k: int): set<string>
  {
    ReachedIn(tl, tl.order, filter, k)
  }

  /** `counts.get(k) || new Set()`. */
  function Get(counts: map<int, set<string>>, k: int): set<string>
  {
    if k in counts then counts[k] else {}
  }

  /** `counts.get(k)?.size || 0`. */
  function Size(counts: map<int, set<string>>, k: int): nat
  {
    |Get(counts, k)|
  }

  lemma ReachedInAppend(tl: Timelines, vs: seq<string>, v: string, filter: Option<set<string>>)
    ensures forall k :: (ReachedIn(tl, vs + [v], filter, k) ==
      ReachedIn(tl, vs, filter, k) + (if v in tl.events && Admits(filter, v) && 1 <= k <= Progress(tl.events[v]) then {v} else {}))
  {
  }

  /** `set = counts.get(k) || new Set(); set.add(v); counts.set(k, set)`. */
  function AddVisitor(counts: map<int, set<string>>, k: int, v: string): map<int, set<string>>
  {
    counts[k := Get(counts, k) + {v}]
  }

  /** The counts after adding visitor `v` to steps 1..n in turn. */
  function VisitorCounts(counts: map<int, set<string>>, v: string, n: nat): map<int, set<string>>
  {
    if n == 0 then counts else AddVisitor(VisitorCounts(counts, v, n - 1), n, v)
  }

  /** The counts after scanning the visitors `vs` in order. */
  function CountMap(tl: Timelines, vs: seq<string>, filter: Option<set<string>>): map<int, set<string>>
  {
    if vs == [] then map[]
    else
      var v := vs[|vs| - 1];
      var m := CountMap(tl, vs[..|vs| - 1], filter);
      if v in tl.events && Admits(filter, v) then VisitorCounts(m, v, Progress(tl.events[v])) else m
  }

  lemma {:induction false} VisitorCountsMeaning(counts: map<int, set<string>>, v: string, n: nat, k: int)
    ensures Get(VisitorCounts(counts, v, n), k) == Get(counts, k) + (if 1 <= k <= n then {v} else {})
    ensures k in VisitorCounts(counts, v, n) <==> k in counts || 1 <= k <= n
  {
    if n > 0 {
      VisitorCountsMeaning(counts, v, n - 1, k);
    }
  }

  /** The counts recorded for step k are the admitted visitors reaching it,
      and a step has an entry exactly when some visitor reaches it. */
  lemma {:induction false} CountMapMeaning(tl: Timelines, vs: seq<string>, filter: Option<set<string>>, k: int)
    ensures Get(CountMap(tl, vs, filter), k) == ReachedIn(tl, vs, filter, k)
    ensures k in CountMap(tl, vs, filter) <==> ReachedIn(tl, vs, filter, k) != {}
  {
    if vs != [] {
      var init, v := vs[..|vs| - 1], vs[|vs| - 1];
      assert vs == init + [v];
      CountMapMeaning(tl, init, filter, k);
      ReachedInAppend(tl, init, v, filter);
      if v in tl.events && Admits(filter, v) {
        VisitorCountsMeaning(CountMap(tl, init, filter), v, Progress(tl.events[v]), k);
      }
    }
  }

  method CalculateStepCounts(tl: Timelines, filter: Option<set<string>>) returns (counts: map<int, set<string>>)
    requires forall v :: v in tl.order ==> v in tl.events
    ensures counts == CountMap(tl, tl.order, filter)
    ensures forall k :: Get(counts, k) == ReachedSet(tl, filter, k)
    ensures forall k :: k in counts <==> ReachedSet(tl, filter, k) != {}
  {
    counts := map[];
    var i := 0;
    while i < |tl.order|
      invariant 0 <= i <= |tl.order|
      invariant counts == CountMap(tl, tl.order[..i], filter)
    {
      var v := tl.order[i];
      CountMapStep(tl, tl.order, filter, i);
      if filter.Some? && v !in filter.value {
        i := i + 1;
        continue;
      }
      counts := CountVisitor(counts, v, SortByTime(tl.events[v]));
      i := i + 1;
    }
    assert tl.order[..|tl.order|] == tl.order;
    CountMapMeaningAll(tl, filter);
  }

  lemma CountMapStep(tl: Timelines, vs: seq<string>, filter: Option<set<string>>, i: int)
    requires 0 <= i < |vs|
    ensures var v, m := vs[i], CountMap(tl, vs[..i], filter);
      CountMap(tl, vs[..i + 1], filter) == if v in tl.events && Admits(filter, v) then VisitorCounts(m, v, Progress(tl.events[v])) else m
  {
    assert vs[..i + 1][..i] == vs[..i];
  }

  lemma CountMapMeaningAll(tl: Timelines, filter: Option<set<string>>)
    ensures var counts := CountMap(tl, tl.order, filter);
      (forall k :: Get(counts, k) == ReachedSet(tl, filter, k)) &&
      (forall k :: k in counts <==> ReachedSet(tl, filter, k) != {})
  {
    forall k
      ensures Get(CountMap(tl, tl.order, filter), k) == ReachedSet(tl, filter, k)
      ensures k in CountMap(tl, tl.order, filter) <==> ReachedSet(tl, filter, k) != {}
    {
      CountMapMeaning(tl, tl.order, filter, k);
    }
  }

  /** The inner loop of `calculateStepCounts`: one visitor's sorted events
      advance the expected step, adding the visitor to each step reached. */
  method CountVisitor(counts0: map<int, set<string>>, v: string, events: seq<VisitorEvent>)
    returns (counts: map<int, set<string>>)
    ensures counts == VisitorCounts(counts0, v, |MatchTimes(events)|)
  {
    counts := counts0;
    var step := 1;
    ghost var t: seq<int> := [];
    var j := 0;
    while j < |events|
      invariant 0 <= j <= |events|
      invariant t == MatchTimes(events[..j])
      invariant step == |t| + 1
      invariant counts == VisitorCounts(counts0, v, |t|)
    {
      var e := events[j];
      if e.step_number == step {
        MatchTimesAdvance(events, j);
        var s := if step in counts then counts[step] else {};
        counts := counts[step := s + {v}];
        step := step + 1;
        t := t + [e.first_occurrence];
      } else {
        MatchTimesSkip(events, j);
      }
      j := j + 1;
    }
    assert events[..|events|] == events;
  }

  /** A visitor counted at step k + 1 is counted at step k, so the counts
      never grow along the funnel. */
  lemma ReachedMonotone(tl: Timelines, filter: Option<set<string>>, k: int)
    requires k >= 1
    ensures ReachedSet(tl, filter, k + 1) <= ReachedSet(tl, filter, k)
    ensures |ReachedSet(tl, filter, k + 1)| <= |ReachedSet(tl, filter, k)|
  {
    assert ReachedSet(tl, filter, k + 1) <= ReachedSet(tl, filter, k);
    SubsetCard(ReachedSet(tl, filter, k + 1), ReachedSet(tl, filter, k));
  }

  lemma SubsetCard<T>(a: set<T>, b: set<T>)
    requires a <= b
    ensures |a| <= |b|
  {
    assert b == a + (b - a);
  }

  /** A visitor is counted at step k exactly when steps 1..k occur in order
      in its time-sorted events; no step is counted outside 1... */
  lemma ReachedMeaning(tl: Timelines, filter: Option<set<string>>, k: nat, v: string)
    requires v in tl.events
    ensures v in ReachedSet(tl, filter, k) <==>
      v in tl.order && Admits(filter, v) && k >= 1 &&
      Seqs.IsSubseq(Ladder(k), StepNumbers(SortByTime(tl.events[v])))
  {
    ReachesIffLadder(SortByTime(tl.events[v]), k);
  }

  /** Restricting to a set of visitors intersects the counts with it. */
  lemma FilteredCounts(tl: Timelines, members: set<string>, k: int)
    ensures ReachedSet(tl, Some(members), k) == ReachedSet(tl, None, k) * members
  {
  }

  // ---------------------------------------------------------------------
  // Timings

  /** The time from step k - 1 to step k, for a visitor with matched times `t`. */
  function StepSample(t: seq<int>, k: int): seq<int>
  {
    if 2 <= k <= |t| then [t[k - 1] - t[k - 2]] else []
  }

  /** The time from step 1 to step n, for a visitor that reached step n. */
  function CompletionSample(t: seq<int>, n: int): seq<int>
  {
    if 1 <= n <= |t| then [t[n - 1] - t[0]] else []
  }

  function Matched(tl: Timelines, v: string): seq<int>
    requires v in tl.events
  {
    MatchTimes(SortByTime(tl.events[v]))
  }

  /** The samples of step k of the visitors in `vs`, in visitor order. */
  function StepTimings(tl: Timelines, vs: seq<string>, k: int): seq<int>
  {
    if vs == [] then []
    else
      var v := vs[|vs| - 1];
      StepTimings(tl, vs[..|vs| - 1], k) + (if v in tl.events then StepSample(Matched(tl, v), k) else [])
  }

  function CompletionTimes(tl: Timelines, vs: seq<string>, n: int): seq<int>
  {
    if vs == [] then []
    else
      var v := vs[|vs| - 1];
      CompletionTimes(tl, vs[..|vs| - 1], n) + (if v in tl.events then CompletionSample(Matched(tl, v), n) else [])
  }

  /** `stepTimings.get(k) || []`. */
  function GetSeq(m: map<int, seq<int>>, k: int): seq<int>
  {
    if k in m then m[k] else []
  }

  /** `arr = m.get(k) || []; arr.push(x); m.set(k, arr)`. */
  function AddSample(m: map<int, seq<int>>, k: int, x: int): map<int, seq<int>>
  {
    m[k := GetSeq(m, k) + [x]]
  }

  lemma AddSampleMeaning(m: map<int, seq<int>>, j: int, x: int, k: int)
    ensures GetSeq(AddSample(m, j, x), k) == GetSeq(m, k) + (if k == j then [x] else [])
    ensures k in AddSample(m, j, x) <==> k in m || k == j
  {
  }

  /** The step timings after recording one visitor with matched times `t`. */
  function VisitorTimings(m: map<int, seq<int>>, t: seq<int>): map<int, seq<int>>
  {
    if |t| <= 1 then m
    else AddSample(VisitorTimings(m, t[..|t| - 1]), |t|, t[|t| - 1] - t[|t| - 2])
  }

  /** The step timings after recording the visitors `vs` in order. */
  function TimingMap(tl: Timelines, vs: seq<string>): map<int, seq<int>>
  {
    if vs == [] then map[]
    else
      var v := vs[|vs| - 1];
      var m := TimingMap(tl, vs[..|vs| - 1]);
      if v in tl.events then VisitorTimings(m, Matched(tl, v)) else m
  }

  lemma VisitorTimingsFirst(m: map<int, seq<int>>, t: seq<int>, x: int)
    requires t == []
    ensures VisitorTimings(m, t + [x]) == m
  {
  }

  lemma VisitorTimingsNext(m: map<int, seq<int>>, t: seq<int>, x: int)
    requires |t| > 0
    ensures VisitorTimings(m, t + [x]) == AddSample(VisitorTimings(m, t), |t| + 1, x - t[|t| - 1])
  {
    assert (t + [x])[..|t|] == t;
  }

  lemma VisitorTimingsMeaning(m: map<int, seq<int>>, t: seq<int>, k: int)
    ensures GetSeq(VisitorTimings(m, t), k) == GetSeq(m, k) + StepSample(t, k)
    ensures k in VisitorTimings(m, t) <==> k in m || 2 <= k <= |t|
  {
    VisitorTimingsGet(m, t, k);
    VisitorTimingsDomain(m, t, k);
  }

  lemma {:induction false} VisitorTimingsGet(m: map<int, seq<int>>, t: seq<int>, k: int)
    ensures GetSeq(VisitorTimings(m, t), k) == GetSeq(m, k) + StepSample(t, k)
  {
    if |t| > 1 {
      var init, x := t[..|t| - 1], t[|t| - 1] - t[|t| - 2];
      VisitorTimingsGet(m, init, k);
      AddSampleMeaning(VisitorTimings(m, init), |t|, x, k);
      StepSampleExtend(t, k);
      Seqs.ConcatAssoc(GetSeq(m, k), StepSample(init, k), if k == |t| then [x] else []);
    } else {
      assert StepSample(t, k) == [];
    }
  }

  lemma {:induction false} VisitorTimingsDomain(m: map<int, seq<int>>, t: seq<int>, k: int)
    ensures k in VisitorTimings(m, t) <==> k in m || 2 <= k <= |t|
  {
    if |t| > 1 {
      var init, x := t[..|t| - 1], t[|t| - 1] - t[|t| - 2];
      VisitorTimingsDomain(m, init, k);
      AddSampleMeaning(VisitorTimings(m, init), |t|, x, k);
    }
  }

  lemma StepSampleExtend(t: seq<int>, k: int)
    requires |t| > 1
    ensures StepSample(t, k) == StepSample(t[..|t| - 1], k) + (if k == |t| then [t[|t| - 1] - t[|t| - 2]] else [])
  {
    var init := t[..|t| - 1];
    if 2 <= k < |t| {
      assert init[k - 1] == t[k - 1] && init[k - 2] == t[k - 2];
    }
  }

  /** The recorded timings of step k are the step-k samples of the visitors,
      in visitor order; a step has an entry once it has a sample. */
  lemma {:induction false} TimingMapMeaning(tl: Timelines, vs: seq<string>, k: int)
    ensures GetSeq(TimingMap(tl, vs), k) == StepTimings(tl, vs, k)
    ensures k in TimingMap(tl, vs) <==> StepTimings(tl, vs, k) != []
  {
    if vs != [] {
      var v := vs[|vs| - 1];
      TimingMapMeaning(tl, vs[..|vs| - 1], k);
      if v in tl.events {
        VisitorTimingsMeaning(TimingMap(tl, vs[..|vs| - 1]), Matched(tl, v), k);
      }
    }
  }

  lemma CompletionSampleKept(t: seq<int>, x: int, n: int)
    requires n != |t| + 1
    ensures CompletionSample(t + [x], n) == CompletionSample(t, n)
  {
    if 1 <= n <= |t| {
      assert (t + [x])[n - 1] == t[n - 1] && (t + [x])[0] == t[0];
    }
  }

  lemma TimingStep(tl: Timelines, vs: seq<string>, i: int, n: int)
    requires 0 <= i < |vs| && vs[i] in tl.events
    ensures TimingMap(tl, vs[..i + 1]) == VisitorTimings(TimingMap(tl, vs[..i]), Matched(tl, vs[i]))
    ensures CompletionTimes(tl, vs[..i + 1], n) == CompletionTimes(tl, vs[..i], n) + CompletionSample(Matched(tl, vs[i]), n)
  {
    assert vs[..i + 1][..i] == vs[..i];
  }

  /** The timing loop of `processFunnelAnalytics`. */
  method CollectTimings(tl: Timelines, totalSteps: int) returns (stepTimings: map<int, seq<int>>, completionTimes: seq<int>)
    requires forall v :: v in tl.order ==> v in tl.events
    ensures stepTimings == TimingMap(tl, tl.order)
    ensures completionTimes == CompletionTimes(tl, tl.order, totalSteps)
  {
    stepTimings := map[];
    completionTimes := [];
    var i := 0;
    while i < |tl.order|
      invariant 0 <= i <= |tl.order|
      invariant stepTimings == TimingMap(tl, tl.order[..i])
      invariant completionTimes == CompletionTimes(tl, tl.order[..i], totalSteps)
    {
      var v := tl.order[i];
      TimingStep(tl, tl.order, i, totalSteps);
      stepTimings, completionTimes := TimeVisitor(stepTimings, completionTimes, SortByTime(tl.events[v]), totalSteps);
      i := i + 1;
    }
    assert tl.order[..|tl.order|] == tl.order;
  }

  /** The inner loop of the timing loop: one visitor's sorted events. */
  method TimeVisitor(stepTimings0: map<int, seq<int>>, completionTimes0: seq<int>, events: seq<VisitorEvent>, totalSteps: int)
    returns (stepTimings: map<int, seq<int>>, completionTimes: seq<int>)
    ensures stepTimings == VisitorTimings(stepTimings0, MatchTimes(events))
    ensures completionTimes == completionTimes0 + CompletionSample(MatchTimes(events), totalSteps)
  {
    stepTimings, completionTimes := stepTimings0, completionTimes0;
    var currentStep := 1;
    var firstTime := 0;
    var prevTime := 0;
    ghost var t: seq<int> := [];
    var j := 0;
    while j < |events|
      invariant 0 <= j <= |events|
      invariant t == MatchTimes(events[..j])
      invariant Recorded(stepTimings0, completionTimes0, t, totalSteps, stepTimings, completionTimes, currentStep, firstTime, prevTime)
    {
      MatchTimesStep(events, j);
      stepTimings, completionTimes, currentStep, firstTime, prevTime, t :=
        ObserveEvent(stepTimings0, completionTimes0, t, totalSteps, stepTimings, completionTimes, currentStep, firstTime, prevTime, events[j]);
      j := j + 1;
    }
    assert events[..|events|] == events;
  }

  /** The state of the inner loop once the matched times `t` are recorded. */
  ghost predicate Recorded(stepTimings0: map<int, seq<int>>, completionTimes0: seq<int>, t: seq<int>, totalSteps: int,
                           stepTimings: map<int, seq<int>>, completionTimes: seq<int>,
                           currentStep: int, firstTime: int, prevTime: int)
  {
    && currentStep == |t| + 1
    && (|t| > 0 ==> firstTime == t[0] && prevTime == t[|t| - 1])
    && stepTimings == VisitorTimings(stepTimings0, t)
    && completionTimes == completionTimes0 + CompletionSample(t, totalSteps)
  }

  /** The body of the inner loop. An event that is the visitor's next step
      records its gap to the previous step from step 2 on, and its time since
      step 1 once it is the last step; any other event changes nothing. */
  method ObserveEvent(ghost stepTimings0: map<int, seq<int>>, ghost completionTimes0: seq<int>, ghost t: seq<int>, totalSteps: int,
                      stepTimings: map<int, seq<int>>, completionTimes: seq<int>,
                      currentStep: int, firstTime: int, prevTime: int, e: VisitorEvent)
    returns (stepTimings': map<int, seq<int>>, completionTimes': seq<int>, currentStep': int, firstTime': int, prevTime': int,
             ghost t': seq<int>)
    requires Recorded(stepTimings0, completionTimes0, t, totalSteps, stepTimings, completionTimes, currentStep, firstTime, prevTime)
    ensures t' == if e.step_number == |t| + 1 then t + [e.first_occurrence] else t
    ensures Recorded(stepTimings0, completionTimes0, t', totalSteps, stepTimings', completionTimes', currentStep', firstTime', prevTime')
  {
    stepTimings', completionTimes', currentStep', firstTime', prevTime' := stepTimings, completionTimes, currentStep, firstTime, prevTime;
    t' := t;
    if e.step_number == currentStep {
      var x := e.first_occurrence;
      t' := t + [x];
      if currentStep == 1 {
        VisitorTimingsFirst(stepTimings0, t, x);
        firstTime' := x;
        prevTime' := x;
      } else {
        VisitorTimingsNext(stepTimings0, t, x);
        var arr := GetSeq(stepTimings', currentStep);
        stepTimings' := stepTimings'[currentStep := arr + [x - prevTime']];
        prevTime' := x;
      }
      assert t'[0] == firstTime';
      if currentStep == totalSteps {
        assert CompletionSample(t', totalSteps) == [x - firstTime'];
        assert CompletionSample(t, totalSteps) == [];
        completionTimes' := completionTimes' + [x - firstTime'];
      } else {
        CompletionSampleKept(t, x, totalSteps);
      }
      currentStep' := currentStep + 1;
    }
  }

  /** A visitor's matched times never decrease, since its events are sorted first. */
  lemma MatchedAscending(tl: Timelines, v: string)
    requires v in tl.events
    ensures Ascending(Matched(tl, v))
  {
    Seqs.SortByIsSort(tl.events[v], TimeOf);
    MatchTimesAscending(SortByTime(tl.events[v]));
  }

  /** Every step timing is a non-negative number of seconds. */
  lemma {:induction false} StepTimingsNonNegative(tl: Timelines, vs: seq<string>, k: int)
    ensures forall x :: x in StepTimings(tl, vs, k) ==> x >= 0
  {
    if vs != [] {
      var v := vs[|vs| - 1];
      StepTimingsNonNegative(tl, vs[..|vs| - 1], k);
      if v in tl.events {
        MatchedAscending(tl, v);
      }
    }
  }

  /** Every completion time is a non-negative number of seconds. */
  lemma {:induction false} CompletionTimesNonNegative(tl: Timelines, vs: seq<string>, n: int)
    ensures forall x :: x in CompletionTimes(tl, vs, n) ==> x >= 0
  {
    if vs != [] {
      var v := vs[|vs| - 1];
      CompletionTimesNonNegative(tl, vs[..|vs| - 1], n);
      if v in tl.events {
        MatchedAscending(tl, v);
      }
    }
  }

  /** One step-k sample per visitor that reached step k, and one completion
      time per visitor that reached the last step. */
  lemma {:induction false} OneSamplePerVisitor(tl: Timelines, vs: seq<string>, k: int)
    requires Distinct(vs)
    ensures k >= 2 ==> |StepTimings(tl, vs, k)| == |ReachedIn(tl, vs, None, k)|
    ensures k >= 1 ==> |CompletionTimes(tl, vs, k)| == |ReachedIn(tl, vs, None, k)|
  {
    if vs != [] {
      var init, v := vs[..|vs| - 1], vs[|vs| - 1];
      assert forall i, j :: 0 <= i < j < |init| ==> init[i] == vs[i] && init[j] == vs[j];
      OneSamplePerVisitor(tl, init, k);
      assert vs == init + [v];
      ReachedInAppend(tl, init, v, None);
      assert v !in init;
      assert v !in ReachedIn(tl, init, None, k);
    }
  }
}
