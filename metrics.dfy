/** The numeric helpers of the funnel engine (`packages/rpc/src/lib/analytics-utils.ts`):
    rounding, percentages in hundredths, rounded means and the human-readable
    duration label. `Math.round` of a quotient is modelled exactly on integers. */
module Metrics {
  import opened Common
  import opened Text
  import Seqs

  /** `Math.round(a / b)` for `b > 0`: the nearest integer, halves rounded up. */
  function RoundDiv(a: int, b: int): (r: int)
    requires b > 0
    ensures 2 * b * r <= 2 * a + b < 2 * b * r + 2 * b
    ensures a >= 0 ==> r >= 0
  {
    var q := (2 * a + b) / (2 * b);
    assert 2 * b * q <= 2 * a + b < 2 * b * q + 2 * b by {
      DivBounds(2 * a + b, 2 * b);
    }
    q
  }

  lemma DivBounds(x: int, d: int)
    requires d > 0
    ensures d * (x / d) <= x < d * (x / d) + d
  {
  }

  /** A percentage in hundredths of a percent: `pct(a, b)` of the source is
      `Pct(a, b) / 100`. It is `a / b * 100` rounded to two decimals, and 0
      once the denominator is not positive. */
  function Pct(a: int, b: int): (r: int)
    ensures b <= 0 ==> r == 0
    ensures b > 0 ==> 2 * b * r <= 20000 * a + b < 2 * b * r + 2 * b
  {
    if b > 0 then RoundDiv(a * 10000, b) else 0
  }

  /** `k * x < k * y` with a positive `k` gives `x < y`. */
  lemma LessByFactor(k: int, x: int, y: int)
    requires k > 0 && k * x < k * y
    ensures x < y
  {
  }

  /** The rounding bounds determine the rounded quotient. */
  lemma RoundDivUnique(a: int, b: int, q: int)
    requires b > 0
    requires 2 * b * q <= 2 * a + b < 2 * b * q + 2 * b
    ensures RoundDiv(a, b) == q
  {
    var r := RoundDiv(a, b);
    LessByFactor(2 * b, q, r + 1);
    LessByFactor(2 * b, r, q + 1);
  }

  /** For a part `a` of a whole `b` the percentage lies in [0, 100.00], is
      100.00 for the whole and 0 for nothing. */
  lemma PctOfPart(a: int, b: int)
    requires 0 <= a <= b && b > 0
    ensures 0 <= Pct(a, b) <= 10000
    ensures a == b ==> Pct(a, b) == 10000
    ensures a == 0 ==> Pct(a, b) == 0
  {
    LessByFactor(2 * b, Pct(a, b), 10001);
    if a == b {
      RoundDivUnique(a * 10000, b, 10000);
    }
    if a == 0 {
      RoundDivUnique(0, b, 0);
    }
  }

  /** More of the same whole never gives a smaller percentage. */
  lemma PctMonotone(a1: int, a2: int, b: int)
    requires a1 <= a2
    ensures Pct(a1, b) <= Pct(a2, b)
  {
    if b > 0 {
      var r1, r2 := Pct(a1, b), Pct(a2, b);
      assert 2 * b * (r2 + 1) == 2 * b * r2 + 2 * b;
      assert 20000 * a1 <= 20000 * a2;
      LessByFactor(2 * b, r1, r2 + 1);
    }
  }

  /** `safeAvg`: the rounded mean of the samples, 0 for none. */
  function SafeAvg(samples: seq<int>): (r: int)
    ensures |samples| == 0 ==> r == 0
    ensures |samples| > 0 ==>
      2 * |samples| * r <= 2 * Seqs.Sum(samples) + |samples| < 2 * |samples| * r + 2 * |samples|
  {
    if |samples| > 0 then RoundDiv(Seqs.Sum(samples), |samples|) else 0
  }

  lemma {:induction false} SumBounds(s: seq<int>, lo: int, hi: int)
    requires forall i :: 0 <= i < |s| ==> lo <= s[i] <= hi
    ensures |s| * lo <= Seqs.Sum(s) <= |s| * hi
  {
    if |s| > 0 {
      SumBounds(s[..|s| - 1], lo, hi);
      assert (|s| - 1) * lo + lo == |s| * lo;
      assert (|s| - 1) * hi + hi == |s| * hi;
    }
  }

  /** The rounded mean lies between the smallest and the largest sample. */
  lemma SafeAvgBetween(samples: seq<int>, lo: int, hi: int)
    requires |samples| > 0
    requires forall i :: 0 <= i < |samples| ==> lo <= samples[i] <= hi
    ensures lo <= SafeAvg(samples) <= hi
  {
    SumBounds(samples, lo, hi);
    RoundedMeanBetween(|samples|, Seqs.Sum(samples), SafeAvg(samples), lo, hi);
  }

  /** The arithmetic behind `SafeAvgBetween`. */
  lemma RoundedMeanBetween(n: int, total: int, r: int, lo: int, hi: int)
    requires n > 0 && n * lo <= total <= n * hi
    requires 2 * n * r <= 2 * total + n < 2 * n * r + 2 * n
    ensures lo <= r <= hi
  {
    var k := 2 * n;
    assert k * (hi + 1) == 2 * (n * hi) + k;
    assert k * (r + 1) == 2 * n * r + k;
    assert k * lo == 2 * (n * lo);
    LessByFactor(k, r, hi + 1);
    LessByFactor(k, lo, r + 1);
  }

  lemma {:induction false} SumNonNegative(s: seq<int>)
    requires forall x :: x in s ==> x >= 0
    ensures Seqs.Sum(s) >= 0
  {
    if |s| > 0 {
      var init := s[..|s| - 1];
      assert s[|s| - 1] in s;
      assert forall i :: 0 <= i < |init| ==> init[i] == s[i] && s[i] in s;
      SumNonNegative(init);
    }
  }

  /** The mean of durations is a duration. */
  lemma SafeAvgNonNegative(samples: seq<int>)
    requires forall x :: x in samples ==> x >= 0
    ensures SafeAvg(samples) >= 0
  {
    SumNonNegative(samples);
  }

  // ---------------------------------------------------------------------
  // Duration labels

  /** The placeholder for a missing or non-positive duration (U+2014). */
  const Dash: string := "\U{2014}"

  /** `formatDuration` exactly as written, on whole seconds. In the hour
      branch the minutes are `Math.round((seconds % 3600) / 60)`, which
      reaches 60 for the last 30 seconds of every hour. */
  function FormatDurationAsWritten(seconds: int): string
  {
    if seconds <= 0 then Dash
    else if seconds < 60 then NatToString(seconds) + "s"
    else if seconds < 3600 then
      var m, s := seconds / 60, seconds % 60;
      if s > 0 then NatToString(m) + "m " + NatToString(s) + "s" else NatToString(m) + "m"
    else
      var h, m := seconds / 3600, RoundDiv(seconds % 3600, 60);
      if m > 0 then NatToString(h) + "h " + NatToString(m) + "m" else NatToString(h) + "h"
  }

  /** `formatDuration` with the rounded minutes carried into the hours, so
      that the label never shows 60 minutes. Agrees with the code as written
      everywhere else (`FormatDurationAgrees`). */
  function FormatDuration(seconds: int): string
  {
    if seconds <= 0 then Dash
    else if seconds < 60 then NatToString(seconds) + "s"
    else if seconds < 3600 then
      var m, s := seconds / 60, seconds % 60;
      if s > 0 then NatToString(m) + "m " + NatToString(s) + "s" else NatToString(m) + "m"
    else
      var total := RoundDiv(seconds, 60);
      var h, m := total / 60, total % 60;
      if m > 0 then NatToString(h) + "h " + NatToString(m) + "m" else NatToString(h) + "h"
  }

  /** A reading of a duration label: hours, minutes and seconds. */
  datatype Clock = Clock(h: nat, m: nat, s: nat)

  function AddClock(c1: Clock, c2: Clock): Clock
  {
    Clock(c1.h + c2.h, c1.m + c2.m, c1.s + c2.s)
  }

  function ClockSeconds(c: Clock): nat
  {
    3600 * c.h + 60 * c.m + c.s
  }

  /** Reads one `<digits><unit>` term, unit `h`, `m` or `s`. */
  function ReadTerm(s: string): Option<(Clock, string)>
  {
    var k := DigitRun(s);
    if k == 0 || k >= |s| then None
    else
      var n := DigitsValue(s[..k]);
      if s[k] == 'h' then Some((Clock(n, 0, 0), s[k + 1..]))
      else if s[k] == 'm' then Some((Clock(0, n, 0), s[k + 1..]))
      else if s[k] == 's' then Some((Clock(0, 0, n), s[k + 1..]))
      else None
  }

  /** Parses a label of one term or of two terms separated by a space. */
  function ReadDuration(text: string): Option<Clock>
  {
    match ReadTerm(text)
    case None => None
    case Some((c1, rest)) =>
      if rest == [] then Some(c1)
      else if rest[0] != ' ' then None
      else
        match ReadTerm(rest[1..])
        case None => None
        case Some((c2, rest2)) =>
          if rest2 == [] then Some(AddClock(c1, c2)) else None
  }

  function UnitClock(n: nat, u: char): Clock
  {
    if u == 'h' then Clock(n, 0, 0) else if u == 'm' then Clock(0, n, 0) else Clock(0, 0, n)
  }

  /** A term made of a run of digits and a unit letter. */
  lemma ReadTermOfDigits(d: string, u: char, rest: string)
    requires |d| > 0 && AllDigits(d)
    requires u == 'h' || u == 'm' || u == 's'
    ensures ReadTerm(d + [u] + rest) == Some((UnitClock(DigitsValue(d), u), rest))
  {
    var s := d + [u] + rest;
    assert s == d + ([u] + rest);
    DigitRunOfDigits(d, [u] + rest);
    assert s[..|d|] == d;
    assert s[|d|] == u;
    assert s[|d| + 1..] == rest;
  }

  lemma ReadOneTermOfDigits(d: string, u: char)
    requires |d| > 0 && AllDigits(d)
    requires u == 'h' || u == 'm' || u == 's'
    ensures ReadDuration(d + [u]) == Some(UnitClock(DigitsValue(d), u))
  {
    ReadTermOfDigits(d, u, []);
    assert d + [u] + [] == d + [u];
  }

  lemma ReadTwoTermsOfDigits(d1: string, u1: char, d2: string, u2: char)
    requires |d1| > 0 && AllDigits(d1) && |d2| > 0 && AllDigits(d2)
    requires u1 == 'h' || u1 == 'm' || u1 == 's'
    requires u2 == 'h' || u2 == 'm' || u2 == 's'
    ensures ReadDuration(d1 + [u1] + [' '] + d2 + [u2])
            == Some(AddClock(UnitClock(DigitsValue(d1), u1), UnitClock(DigitsValue(d2), u2)))
  {
    var p2 := d2 + [u2];
    var tail := [' '] + p2;
    var whole := d1 + [u1] + [' '] + d2 + [u2];
    assert whole == d1 + [u1] + tail;
    ReadTermOfDigits(d1, u1, tail);
    assert tail[1..] == d2 + [u2] + [];
    ReadTermOfDigits(d2, u2, []);
    assert ReadTerm(whole) == Some((UnitClock(DigitsValue(d1), u1), tail));
    assert ReadTerm(tail[1..]) == Some((UnitClock(DigitsValue(d2), u2), []));
    ReadTwoTermsOf(whole, tail);
  }

  lemma ReadTwoTermsOf(text: string, tail: string)
    requires ReadTerm(text).Some? && ReadTerm(text).value.1 == tail
    requires |tail| > 0 && tail[0] == ' '
    requires ReadTerm(tail[1..]).Some? && ReadTerm(tail[1..]).value.1 == []
    ensures var c1, c2 := ReadTerm(text).value.0, ReadTerm(tail[1..]).value.0;
            ReadDuration(text) == Some(AddClock(c1, c2))
  {
  }

  lemma ReadOneTerm(n: nat, u: char)
    requires u == 'h' || u == 'm' || u == 's'
    ensures ReadDuration(NatToString(n) + [u]) == Some(UnitClock(n, u))
  {
    NatToStringDigits(n);
    ReadOneTermOfDigits(NatToString(n), u);
  }

  lemma ReadTwoTerms(n1: nat, u1: char, n2: nat, u2: char)
    requires u1 == 'h' || u1 == 'm' || u1 == 's'
    requires u2 == 'h' || u2 == 'm' || u2 == 's'
    ensures ReadDuration(NatToString(n1) + [u1] + [' '] + NatToString(n2) + [u2])
            == Some(AddClock(UnitClock(n1, u1), UnitClock(n2, u2)))
  {
    NatToStringDigits(n1);
    NatToStringDigits(n2);
    ReadTwoTermsOfDigits(NatToString(n1), u1, NatToString(n2), u2);
  }

  /** A printed number followed by a unit letter is read as one term. */
  lemma ReadNatTerm(n: nat, u: char, rest: string)
    requires u == 'h' || u == 'm' || u == 's'
    ensures ReadTerm(NatToString(n) + [u] + rest) == Some((UnitClock(n, u), rest))
  {
    NatToStringDigits(n);
    ReadTermOfDigits(NatToString(n), u, rest);
  }

  /** The label of a duration under an hour reads back as exactly that many
      seconds, as minutes and seconds below 60: a seconds term alone under a
      minute, otherwise a minutes term followed by a seconds term exactly
      when the seconds are not zero. */
  lemma ShortLabelReadsBack(seconds: int)
    requires 0 < seconds < 3600
    ensures ReadDuration(FormatDuration(seconds)) == Some(Clock(0, seconds / 60, seconds % 60))
    ensures seconds < 60 ==> ReadTerm(FormatDuration(seconds)) == Some((Clock(0, 0, seconds), []))
    ensures seconds >= 60 ==>
      var t := ReadTerm(FormatDuration(seconds));
      t.Some? && t.value.0 == Clock(0, seconds / 60, 0) &&
      (t.value.1 == [] <==> seconds % 60 == 0) &&
      (seconds % 60 > 0 ==>
         t.value.1[0] == ' ' && ReadTerm(t.value.1[1..]) == Some((Clock(0, 0, seconds % 60), [])))
  {
    ShortLabelText(seconds);
    if seconds < 60 {
      SecondsReads(seconds);
    } else {
      MinutesSecondsReads(seconds / 60, seconds % 60);
    }
  }

  /** The label under an hour spelled out as the sequence the reading lemmas take. */
  lemma ShortLabelText(seconds: int)
    requires 0 < seconds < 3600
    ensures FormatDuration(seconds) ==
      if seconds < 60 then NatToString(seconds) + ['s']
      else MinutesSecondsText(seconds / 60, seconds % 60)
  {
    var x, y := NatToString(seconds / 60), NatToString(seconds % 60);
    assert x + "m " + y + "s" == x + ['m'] + [' '] + y + ['s'];
  }

  /** `Mm Ss`, or `Mm` when there are no seconds. */
  function MinutesSecondsText(m: nat, s: nat): string
  {
    if s > 0 then NatToString(m) + ['m'] + [' '] + NatToString(s) + ['s'] else NatToString(m) + ['m']
  }

  lemma SecondsReads(s: nat)
    ensures ReadTerm(NatToString(s) + ['s']) == Some((Clock(0, 0, s), []))
    ensures ReadDuration(NatToString(s) + ['s']) == Some(Clock(0, 0, s))
  {
    assert NatToString(s) + ['s'] == NatToString(s) + ['s'] + [];
    ReadNatTerm(s, 's', []);
  }

  /** A minutes term, then a seconds term exactly when there are seconds. */
  lemma MinutesSecondsReads(m: nat, s: nat)
    ensures ReadDuration(MinutesSecondsText(m, s)) == Some(Clock(0, m, s))
    ensures var t := ReadTerm(MinutesSecondsText(m, s));
      t.Some? && t.value.0 == Clock(0, m, 0) && (t.value.1 == [] <==> s == 0) &&
      (s > 0 ==> t.value.1[0] == ' ' && ReadTerm(t.value.1[1..]) == Some((Clock(0, 0, s), [])))
  {
    if s > 0 {
      var tail := [' '] + NatToString(s) + ['s'];
      assert MinutesSecondsText(m, s) == NatToString(m) + ['m'] + tail;
      ReadNatTerm(m, 'm', tail);
      assert tail[1..] == NatToString(s) + ['s'];
      SecondsReads(s);
      ReadTwoTerms(m, 'm', s, 's');
    } else {
      assert MinutesSecondsText(m, s) == NatToString(m) + ['m'] + [];
      ReadNatTerm(m, 'm', []);
    }
  }

  /** What a duration label promises: a dash for no duration; otherwise a
      reading with minutes and seconds below 60 that is exact under an hour
      and within half a minute beyond. */
  lemma FormatDurationReadsBack(seconds: int)
    ensures seconds <= 0 ==> FormatDuration(seconds) == Dash && ReadDuration(Dash) == None
    ensures seconds > 0 ==>
      var c := ReadDuration(FormatDuration(seconds));
      c.Some? && c.value.m < 60 && c.value.s < 60 &&
      (seconds < 3600 ==> c.value.h == 0 && ClockSeconds(c.value) == seconds) &&
      (seconds >= 3600 ==> c.value.s == 0 && seconds - 30 < ClockSeconds(c.value) <= seconds + 30)
  {
    if seconds <= 0 {
      assert DigitRun(Dash) == 0;
    } else if seconds < 3600 {
      ShortLabelReadsBack(seconds);
    } else {
      LongLabelReads(seconds);
      LongClockWithin(seconds);
    }
  }

  /** Beyond an hour the label reads back as the rounded minutes split into
      hours and minutes. */
  lemma LongLabelReads(seconds: int)
    requires seconds >= 3600
    ensures var total := RoundDiv(seconds, 60);
      ReadDuration(FormatDuration(seconds)) == Some(Clock(total / 60, total % 60, 0))
  {
    var total := RoundDiv(seconds, 60);
    LongLabelText(seconds);
    HoursMinutesReads(total / 60, total % 60);
  }

  /** An hours term, and a minutes term unless there are no minutes. */
  lemma HoursMinutesReads(h: nat, m: nat)
    ensures ReadDuration(if m > 0 then NatToString(h) + ['h'] + [' '] + NatToString(m) + ['m'] else NatToString(h) + ['h'])
            == Some(Clock(h, m, 0))
  {
    if m > 0 {
      ReadTwoTerms(h, 'h', m, 'm');
    } else {
      ReadOneTerm(h, 'h');
    }
  }

  /** The label beyond an hour spelled out as the sequence the reading lemmas take. */
  lemma LongLabelText(seconds: int)
    requires seconds >= 3600
    ensures var total := RoundDiv(seconds, 60);
      var h, m := total / 60, total % 60;
      FormatDuration(seconds) ==
        if m > 0 then NatToString(h) + ['h'] + [' '] + NatToString(m) + ['m'] else NatToString(h) + ['h']
  {
    var total := RoundDiv(seconds, 60);
    var x, y := NatToString(total / 60), NatToString(total % 60);
    assert x + "h " + y + "m" == x + ['h'] + [' '] + y + ['m'];
  }

  lemma LongClockWithin(seconds: int)
    requires seconds >= 3600
    ensures var total := RoundDiv(seconds, 60);
      var c := Clock(total / 60, total % 60, 0);
      c.m < 60 && seconds - 30 < ClockSeconds(c) <= seconds + 30
  {
    var total := RoundDiv(seconds, 60);
    var h, m := total / 60, total % 60;
    assert total == 60 * h + m;
    assert 3600 * h + 60 * m == 60 * total;
    assert 60 * total - 30 <= seconds < 60 * total + 30;
  }

  /** The code as written reads back within half a minute too, but its minutes
      are the rounded remainder of the hour and reach 60 for the last half
      minute of an hour. */
  lemma FormatDurationAsWrittenReadsBack(seconds: int)
    requires seconds >= 3600
    ensures var c := ReadDuration(FormatDurationAsWritten(seconds));
      c == Some(Clock(seconds / 3600, RoundDiv(seconds % 3600, 60), 0)) &&
      c.value.m <= 60 && seconds - 30 < ClockSeconds(c.value) <= seconds + 30
  {
    HourLabelReads(seconds);
    HourClockWithin(seconds);
  }

  lemma HourLabelReads(seconds: int)
    requires seconds >= 3600
    ensures ReadDuration(FormatDurationAsWritten(seconds)) == Some(Clock(seconds / 3600, RoundDiv(seconds % 3600, 60), 0))
  {
    HourLabelText(seconds);
    HoursMinutesReads(seconds / 3600, RoundDiv(seconds % 3600, 60));
  }

  /** The hour label spelled out as the sequence the reading lemmas take. */
  lemma HourLabelText(seconds: int)
    requires seconds >= 3600
    ensures var h, m := seconds / 3600, RoundDiv(seconds % 3600, 60);
      FormatDurationAsWritten(seconds) ==
        if m > 0 then NatToString(h) + ['h'] + [' '] + NatToString(m) + ['m'] else NatToString(h) + ['h']
  {
    var x, y := NatToString(seconds / 3600), NatToString(RoundDiv(seconds % 3600, 60));
    assert x + "h " + y + "m" == x + ['h'] + [' '] + y + ['m'];
  }

  lemma HourClockWithin(seconds: int)
    requires seconds >= 3600
    ensures var c := Clock(seconds / 3600, RoundDiv(seconds % 3600, 60), 0);
      c.m <= 60 && seconds - 30 < ClockSeconds(c) <= seconds + 30
  {
    var m := RoundDiv(seconds % 3600, 60);
    assert 60 * m - 30 <= seconds % 3600 < 60 * m + 30;
  }

  /** The rounded minutes of the hour remainder are 60 exactly in the last
      half minute of an hour. */
  lemma MinutesReachSixty(seconds: int)
    requires seconds >= 3600
    ensures RoundDiv(seconds % 3600, 60) == 60 <==> seconds % 3600 >= 3570
  {
    if seconds % 3600 >= 3570 {
      RoundDivUnique(seconds % 3600, 60, 60);
    }
  }

  /** One hour, 59 minutes and 30 seconds is labelled "1h 60m" by the code as
      written and read back as 60 minutes past the hour. */
  lemma SixtyMinutesLabel(seconds: int)
    requires seconds == 7170
    ensures FormatDurationAsWritten(seconds) == "1h 60m"
    ensures ReadDuration(FormatDurationAsWritten(seconds)) == Some(Clock(1, 60, 0))
  {
    RoundDivUnique(seconds % 3600, 60, 60);
    var one, sixty := NatToString(1), NatToString(60);
    assert one == ['1'];
    assert sixty == NatToString(6) + ['0'] == ['6', '0'];
    var written := one + ['h'] + [' '] + sixty + ['m'];
    assert FormatDurationAsWritten(seconds) == written;
    assert written == "1h 60m";
    FormatDurationAsWrittenReadsBack(seconds);
  }

  /** Carrying the minutes labels the same duration "2h". */
  lemma SixtyMinutesCarried(seconds: int)
    requires seconds == 7170
    ensures FormatDuration(seconds) == "2h"
  {
    RoundDivUnique(seconds, 60, 120);
    var two := NatToString(2);
    assert two == ['2'];
    assert FormatDuration(seconds) == two + ['h'];
  }

  /** In the last half minute of an hour the two labels differ: the code as
      written reads back with 60 minutes, the carried label with fewer. */
  lemma CarriedLabelDiffers(seconds: int)
    requires seconds >= 3600 && seconds % 3600 >= 3570
    ensures FormatDuration(seconds) != FormatDurationAsWritten(seconds)
  {
    MinutesReachSixty(seconds);
    HourLabelReads(seconds);
    LongLabelReads(seconds);
    LongClockWithin(seconds);
  }

  /** The two definitions differ only where the rounded minutes reach 60. */
  lemma FormatDurationAgrees(seconds: int)
    requires seconds < 3600 || seconds % 3600 < 3570
    ensures FormatDuration(seconds) == FormatDurationAsWritten(seconds)
  {
    if seconds >= 3600 {
      HourCarry(seconds);
    }
  }

  /** Below the last half minute of an hour, rounding all the seconds to
      minutes and splitting off the hours gives the hours and the rounded
      minutes of the remainder. */
  lemma HourCarry(seconds: int)
    requires seconds >= 3600 && seconds % 3600 < 3570
    ensures RoundDiv(seconds, 60) / 60 == seconds / 3600
    ensures RoundDiv(seconds, 60) % 60 == RoundDiv(seconds % 3600, 60)
  {
    var h, rem := seconds / 3600, seconds % 3600;
    var m := RoundDiv(rem, 60);
    assert seconds == 3600 * h + rem;
    assert 0 <= m < 60;
    var q := 60 * h + m;
    RoundDivUnique(seconds, 60, q);
    assert q / 60 == h && q % 60 == m;
  }
}
