/** Intervals of a datastore's history that grew out of line with the rest. */
module Anomalies {
  import opened LinearFit
  import opened Projection
  import opened Sorting

  predicate RealLe(a: real, b: real) { a <= b }

  datatype Interval = Interval(fromRunID: int, toRunID: int, bytesPerDay: real, deltaBytes: real, median: real)

  function Halfway(s: seq<real>): real
    requires s != []
  {
    if |s| % 2 == 1 then s[|s| / 2] else (s[|s| / 2 - 1] + s[|s| / 2]) / 2.0
  }

  function Median(values: seq<real>): real
    requires values != []
  {
    Halfway(StableSort(RealLe, values))
  }

  // ----- What a median is

  function CountAbove(s: seq<real>, t: real): nat {
    if s == [] then 0 else (if s[0] > t then 1 else 0) + CountAbove(s[1..], t)
  }

  function CountBelow(s: seq<real>, t: real): nat {
    if s == [] then 0 else (if s[0] < t then 1 else 0) + CountBelow(s[1..], t)
  }

  lemma {:induction false} InsertCounts(x: real, s: seq<real>, t: real)
    ensures CountAbove(Insert(RealLe, x, s), t) == CountAbove([x] + s, t)
    ensures CountBelow(Insert(RealLe, x, s), t) == CountBelow([x] + s, t)
  {
    assert ([x] + s)[1..] == s;
    if s != [] && !RealLe(x, s[0]) {
      InsertCounts(x, s[1..], t);
      assert ([x] + s[1..])[1..] == s[1..];
      assert Insert(RealLe, x, s)[1..] == Insert(RealLe, x, s[1..]);
    }
  }

  lemma {:induction false} SortCounts(s: seq<real>, t: real)
    ensures CountAbove(StableSort(RealLe, s), t) == CountAbove(s, t)
    ensures CountBelow(StableSort(RealLe, s), t) == CountBelow(s, t)
  {
    if s != [] {
      SortCounts(s[1..], t);
      InsertCounts(s[0], StableSort(RealLe, s[1..]), t);
      assert ([s[0]] + StableSort(RealLe, s[1..]))[1..] == StableSort(RealLe, s[1..]);
    }
  }

  lemma {:induction false} FewAbove(s: seq<real>, t: real, k: nat)
    requires k <= |s| && forall i :: 0 <= i < k ==> s[i] <= t
    ensures CountAbove(s, t) <= |s| - k
  {
    if s != [] {
      FewAbove(s[1..], t, if k == 0 then 0 else k - 1);
    }
  }

  lemma {:induction false} FewBelow(s: seq<real>, t: real, k: nat)
    requires k <= |s| && forall i :: k <= i < |s| ==> s[i] >= t
    ensures CountBelow(s, t) <= k
  {
    if s != [] {
      FewBelow(s[1..], t, if k == 0 then 0 else k - 1);
    }
  }

  lemma RealLeIsTotalPreorder()
    ensures TotalPreorder(RealLe)
  {
  }

  lemma InOrder(s: seq<real>, i: nat, j: nat)
    requires Sorted(RealLe, s) && i <= j < |s|
    ensures s[i] <= s[j]
  {
    assert i < j ==> RealLe(s[i], s[j]);
  }

  lemma Between(a: real, b: real)
    requires a <= b
    ensures a <= (a + b) / 2.0 <= b
  {
  }

  lemma HalfwayIsBetween(s: seq<real>)
    requires s != [] && Sorted(RealLe, s)
    ensures s[(|s| - 1) / 2] <= Halfway(s) <= s[|s| / 2]
  {
    if |s| % 2 == 0 {
      InOrder(s, |s| / 2 - 1, |s| / 2);
      Between(s[|s| / 2 - 1], s[|s| / 2]);
    }
  }

  /** At most half the values are above the median, and at most half below. */
  lemma MedianHalves(values: seq<real>)
    requires values != []
    ensures CountAbove(values, Median(values)) * 2 <= |values|
    ensures CountBelow(values, Median(values)) * 2 <= |values|
  {
    var s, m := StableSort(RealLe, values), Median(values);
    RealLeIsTotalPreorder();
    StableSortSorts(RealLe, values);
    SortCounts(values, m);
    HalfwayIsBetween(s);
    var low, high := (|s| - 1) / 2, |s| / 2;
    forall i | 0 <= i < low + 1 ensures s[i] <= m {
      InOrder(s, i, low);
    }
    forall i | high <= i < |s| ensures s[i] >= m {
      InOrder(s, high, i);
    }
    FewAbove(s, m, low + 1);
    FewBelow(s, m, high);
  }

  lemma MedianAtLeast(values: seq<real>, least: real)
    requires values != [] && forall i :: 0 <= i < |values| ==> values[i] >= least
    ensures Median(values) >= least
  {
    var s := StableSort(RealLe, values);
    SameMembers(s, values);
    forall i | 0 <= i < |s| ensures s[i] >= least {
      assert s[i] in values;
    }
  }

  // ----- The anomalies

  /** The intervals of positive length between neighbouring points. */
  function Intervals(points: seq<Point>): seq<Interval> {
    if |points| < 2 then []
    else
      var n := |points| - 1;
      var days := Days(points[n - 1], points[n]);
      Intervals(points[..n]) + if days <= 0.0 then [] else
        var delta := (UsedBytes(points[n]) - UsedBytes(points[n - 1])) as real;
        [Interval(points[n - 1].runID, points[n].runID, delta / days, delta, 0.0)]
  }

  function Rates(intervals: seq<Interval>): seq<real> {
    seq(|intervals|, i requires 0 <= i < |intervals| => intervals[i].bytesPerDay)
  }

  function AbsReal(x: real): real { if x < 0.0 then -x else x }

  function Deviations(rates: seq<real>, m: real): seq<real> {
    seq(|rates|, i requires 0 <= i < |rates| => AbsReal(rates[i] - m))
  }

  function Threshold(rates: seq<real>): real
    requires rates != []
  {
    Median(rates) + 3.0 * Median(Deviations(rates, Median(rates)))
  }

  predicate OutOfLine(i: Interval, threshold: real) { i.bytesPerDay > 0.0 && i.bytesPerDay > threshold }

  function Flagged(intervals: seq<Interval>, m: real, threshold: real): seq<Interval> {
    if intervals == [] then []
    else
      var n := |intervals| - 1;
      Flagged(intervals[..n], m, threshold)
      + if OutOfLine(intervals[n], threshold) then [intervals[n].(median := m)] else []
  }

  method UsableIntervals(points: seq<Point>) returns (rates: seq<real>, intervals: seq<Interval>)
    requires points != []
    ensures intervals == Intervals(points) && rates == Rates(intervals)
  {
    rates, intervals := [], [];
    for i := 1 to |points|
      invariant intervals == Intervals(points[..i]) && rates == Rates(intervals)
    {
      assert points[..i + 1][..i] == points[..i];
      var days := Days(points[i - 1], points[i]);
      if days <= 0.0 {
        continue;
      }
      var delta := (UsedBytes(points[i]) - UsedBytes(points[i - 1])) as real;
      var rate := delta / days;
      rates := rates + [rate];
      intervals := intervals + [Interval(points[i - 1].runID, points[i].runID, rate, delta, 0.0)];
    }
    assert points[..|points|] == points;
  }

  method DeviationsFrom(rates: seq<real>, m: real) returns (deviations: seq<real>)
    ensures deviations == Deviations(rates, m)
  {
    deviations := [];
    for i := 0 to |rates|
      invariant deviations == Deviations(rates, m)[..i]
    {
      deviations := deviations + [AbsReal(rates[i] - m)];
    }
    assert deviations == Deviations(rates, m);
  }

  method Flag(intervals: seq<Interval>, m: real, threshold: real) returns (out: seq<Interval>)
    ensures out == Flagged(intervals, m, threshold)
  {
    out := [];
    for i := 0 to |intervals|
      invariant out == Flagged(intervals[..i], m, threshold)
    {
      assert intervals[..i + 1][..i] == intervals[..i];
      if OutOfLine(intervals[i], threshold) {
        out := out + [intervals[i].(median := m)];
      }
    }
    assert intervals[..|intervals|] == intervals;
  }

  method FindAnomalies(points: seq<Point>) returns (out: seq<Interval>)
    ensures var all := Intervals(points);
      out == if |points| < 5 || |all| < 4 then [] else Flagged(all, Median(Rates(all)), Threshold(Rates(all)))
  {
    out := [];
    if |points| < 5 {
      return;
    }
    var rates, intervals := UsableIntervals(points);
    if |rates| < 4 {
      return;
    }
    var med := Median(rates);
    var deviations := DeviationsFrom(rates, med);
    var mad := Median(deviations);
    var threshold := med + 3.0 * mad;
    out := Flag(intervals, med, threshold);
  }

  // ----- How many there can be

  lemma {:induction false} CountAboveConcat(a: seq<real>, b: seq<real>, t: real)
    ensures CountAbove(a + b, t) == CountAbove(a, t) + CountAbove(b, t)
  {
    if a == [] {
      assert a + b == b;
    } else {
      CountAboveConcat(a[1..], b, t);
      assert (a + b)[1..] == a[1..] + b;
    }
  }

  lemma {:induction false} FlaggedAreAbove(intervals: seq<Interval>, m: real, threshold: real)
    ensures |Flagged(intervals, m, threshold)| <= CountAbove(Rates(intervals), threshold)
  {
    if intervals != [] {
      var n := |intervals| - 1;
      FlaggedAreAbove(intervals[..n], m, threshold);
      assert Rates(intervals) == Rates(intervals[..n]) + [intervals[n].bytesPerDay];
      CountAboveConcat(Rates(intervals[..n]), [intervals[n].bytesPerDay], threshold);
    }
  }

  /** No value is nearer to the median than the middle values are. */
  lemma FarFromMedian(s: seq<real>, i: nat)
    requires Sorted(RealLe, s) && i < |s|
    ensures AbsReal(s[i] - Halfway(s)) >= s[|s| / 2] - Halfway(s)
  {
    if i < |s| / 2 && |s| % 2 == 0 {
      InOrder(s, i, |s| / 2 - 1);
    } else if i >= |s| / 2 {
      InOrder(s, |s| / 2, i);
    }
  }

  lemma DeviationsReach(rates: seq<real>, s: seq<real>, i: nat)
    requires i < |rates| && Sorted(RealLe, s) && rates[i] in s
    ensures Deviations(rates, Halfway(s))[i] >= s[|s| / 2] - Halfway(s)
  {
    var j :| 0 <= j < |s| && s[j] == rates[i];
    FarFromMedian(s, j);
  }

  lemma SortedRates(rates: seq<real>)
    ensures var s := StableSort(RealLe, rates);
      |s| == |rates| && Sorted(RealLe, s) && forall i :: 0 <= i < |rates| ==> rates[i] in s
  {
    RealLeIsTotalPreorder();
    StableSortSorts(RealLe, rates);
    SameMembers(rates, StableSort(RealLe, rates));
  }

  lemma ThriceAbove(m: real, middle: real, mad: real)
    requires m <= middle && mad >= middle - m
    ensures m + 3.0 * mad >= middle
  {
  }

  /** The threshold is no less than the upper of the middle values. */
  lemma ThresholdIsAboveMiddle(rates: seq<real>)
    requires rates != []
    ensures Threshold(rates) >= StableSort(RealLe, rates)[|rates| / 2]
  {
    SortedRates(rates);
    var s, m := StableSort(RealLe, rates), Median(rates);
    var deviations := Deviations(rates, m);
    forall i | 0 <= i < |deviations| ensures deviations[i] >= s[|s| / 2] - m {
      DeviationsReach(rates, s, i);
    }
    MedianAtLeast(deviations, s[|s| / 2] - m);
    HalfwayIsBetween(s);
    ThriceAbove(m, s[|s| / 2], Median(deviations));
  }

  /** Fewer than half the intervals are out of line, whatever the history. */
  lemma FewerThanHalfAreAnomalies(points: seq<Point>)
    requires Intervals(points) != []
    ensures var all := Intervals(points);
      |Flagged(all, Median(Rates(all)), Threshold(Rates(all)))| * 2 < |all|
  {
    var rates := Rates(Intervals(points));
    var s, threshold := StableSort(RealLe, rates), Threshold(rates);
    ThresholdIsAboveMiddle(rates);
    SortedRates(rates);
    FlaggedAreAbove(Intervals(points), Median(rates), threshold);
    SortCounts(rates, threshold);
    forall i | 0 <= i < |s| / 2 + 1 ensures s[i] <= threshold {
      InOrder(s, i, |s| / 2);
    }
    FewAbove(s, threshold, |s| / 2 + 1);
  }

  // ----- On the recorded values

  /** m is the middle of the values, or halfway between the two middle ones. */
  ghost predicate IsMedian(values: seq<real>, m: real) {
    exists s :: Arranged(values, s) && m + m == s[(|s| - 1) / 2] + s[|s| / 2]
  }

  ghost predicate Arranged(values: seq<real>, s: seq<real>) {
    s != [] && multiset(s) == multiset(values) && forall i, j :: 0 <= i < j < |s| ==> s[i] <= s[j]
  }

  lemma MedianIsMedian(values: seq<real>)
    requires values != []
    ensures IsMedian(values, Median(values))
  {
    var s := StableSort(RealLe, values);
    RealLeIsTotalPreorder();
    StableSortSorts(RealLe, values);
    forall i, j | 0 <= i < j < |s| ensures s[i] <= s[j] {
      assert RealLe(s[i], s[j]);
    }
    assert Arranged(values, s);
  }

  /** How far each rate is from m. */
  predicate AreDistances(rates: seq<real>, m: real, distances: seq<real>) {
    |distances| == |rates| && forall k :: 0 <= k < |rates| ==> distances[k] == if rates[k] >= m then rates[k] - m else m - rates[k]
  }

  /** Interval k grew, by more a day than the median and three times the median distance from it. */
  predicate GrewTooFast(all: seq<Interval>, m: real, mad: real, k: int) {
    0 <= k < |all| && all[k].bytesPerDay > 0.0 && all[k].bytesPerDay > m + mad + mad + mad
  }

  ghost predicate IsFlagged(all: seq<Interval>, m: real, mad: real, x: Interval) {
    exists k :: GrewTooFast(all, m, mad, k) && x == all[k].(median := m)
  }

  /** m is the median of the rates, mad that of their distances from it, and flagged holds exactly the
      intervals that grew too fast. */
  ghost predicate FlagsTheFast(all: seq<Interval>, rates: seq<real>, flagged: seq<Interval>, m: real, mad: real, distances: seq<real>) {
    && IsMedian(rates, m) && AreDistances(rates, m, distances) && IsMedian(distances, mad)
    && forall x :: x in flagged <==> IsFlagged(all, m, mad, x)
  }

  /** Exactly the intervals that grew too fast are flagged. */
  lemma FlaggedExactly(points: seq<Point>)
    requires Intervals(points) != []
    ensures var all := Intervals(points);
      exists m, mad, distances ::
        FlagsTheFast(all, Rates(all), Flagged(all, Median(Rates(all)), Threshold(Rates(all))), m, mad, distances)
  {
    var all := Intervals(points);
    FlaggedOf(all, Rates(all));
  }

  lemma FlaggedOf(all: seq<Interval>, rates: seq<real>)
    requires rates != []
    ensures exists m, mad, distances :: FlagsTheFast(all, rates, Flagged(all, Median(rates), Threshold(rates)), m, mad, distances)
  {
    var m := Median(rates);
    var distances := Deviations(rates, m);
    var mad := Median(distances);
    MedianIsMedian(rates);
    MedianIsMedian(distances);
    DeviationsAre(rates, m);
    var threshold, flagged := Threshold(rates), Flagged(all, m, Threshold(rates));
    forall x ensures x in flagged <==> IsFlagged(all, m, mad, x) {
      FlaggedAre(all, m, mad, threshold, x);
    }
    assert FlagsTheFast(all, rates, flagged, m, mad, distances);
  }

  lemma DeviationsAre(rates: seq<real>, m: real)
    ensures AreDistances(rates, m, Deviations(rates, m))
  {
  }

  lemma {:induction false} FlaggedAre(all: seq<Interval>, m: real, mad: real, threshold: real, x: Interval)
    requires threshold == m + 3.0 * mad
    ensures x in Flagged(all, m, threshold) <==> IsFlagged(all, m, mad, x)
  {
    if all != [] {
      var n := |all| - 1;
      FlaggedAre(all[..n], m, mad, threshold, x);
      if k :| GrewTooFast(all, m, mad, k) && x == all[k].(median := m) {
        assert k < n ==> GrewTooFast(all[..n], m, mad, k) && all[..n][k] == all[k];
      }
      if k :| GrewTooFast(all[..n], m, mad, k) && x == all[..n][k].(median := m) {
        assert GrewTooFast(all, m, mad, k) && all[..n][k] == all[k];
      }
    }
  }

  /** An interval lies between two neighbouring points of different times: its growth is the difference
      of what they use, and its rate that growth over the days between. */
  predicate LiesBetween(i: Interval, p: Point, q: Point) {
    && p.startedAt < q.startedAt && i.fromRunID == p.runID && i.toRunID == q.runID
    && i.deltaBytes == (InUse(q) - InUse(p)) as real
    && i.bytesPerDay * (q.startedAt - p.startedAt) as real == i.deltaBytes * 86_400_000_000_000.0
  }

  predicate IsInterval(points: seq<Point>, i: Interval, n: int) { 0 < n < |points| && LiesBetween(i, points[n - 1], points[n]) }

  lemma IntervalOfMore(points: seq<Point>, n: nat, i: Interval, m: int)
    requires n <= |points| && IsInterval(points[..n], i, m)
    ensures IsInterval(points, i, m)
  {
    assert points[..n][m - 1] == points[m - 1] && points[..n][m] == points[m];
  }

  lemma {:induction false} IntervalsAre(points: seq<Point>, i: Interval)
    requires i in Intervals(points)
    ensures exists n :: IsInterval(points, i, n)
  {
    var n := |points| - 1;
    if i in Intervals(points[..n]) {
      IntervalsAre(points[..n], i);
      var m :| IsInterval(points[..n], i, m);
      IntervalOfMore(points, n, i, m);
    } else {
      LastIs(points, i);
      LastInterval(points[n - 1], points[n], i);
      assert IsInterval(points, i, n);
    }
  }

  lemma LastIs(points: seq<Point>, i: Interval)
    requires i in Intervals(points) && |points| > 0 && i !in Intervals(points[..|points| - 1])
    ensures |points| >= 2 && i.fromRunID == points[|points| - 2].runID && i.toRunID == points[|points| - 1].runID
    ensures var p, q := points[|points| - 2], points[|points| - 1];
      Days(p, q) > 0.0 && i.deltaBytes == (UsedBytes(q) - UsedBytes(p)) as real && i.bytesPerDay == i.deltaBytes / Days(p, q)
  {
  }

  lemma LastInterval(p: Point, q: Point, i: Interval)
    requires Days(p, q) > 0.0
    requires i.deltaBytes == (UsedBytes(q) - UsedBytes(p)) as real && i.bytesPerDay == i.deltaBytes / Days(p, q)
    requires i.fromRunID == p.runID && i.toRunID == q.runID
    ensures LiesBetween(i, p, q)
  {
    var dt := (q.startedAt - p.startedAt) as real;
    DayQuotient(dt);
    Quotient(i.deltaBytes, Days(p, q));
    InUseIs(p);
    InUseIs(q);
    RateTimesTime(i.bytesPerDay, Days(p, q), dt, i.deltaBytes);
    if dt <= 0.0 {
      NotPositive(dt, DAY as real);
    }
  }

  lemma RateTimesTime(rate: real, days: real, dt: real, delta: real)
    requires days * rate == delta && days * 86_400_000_000_000.0 == dt
    ensures rate * dt == delta * 86_400_000_000_000.0
  {
    assert rate * dt == rate * days * 86_400_000_000_000.0;
  }

  /** Every two neighbouring points of rising times give one. */
  lemma {:induction false} IntervalsAreAll(points: seq<Point>, n: nat)
    requires 0 < n < |points| && points[n - 1].startedAt < points[n].startedAt
    ensures exists i :: i in Intervals(points) && IsInterval(points, i, n)
  {
    var last := |points| - 1;
    if n < last {
      IntervalsAreAll(points[..last], n);
      var i :| i in Intervals(points[..last]) && IsInterval(points[..last], i, n);
      IntervalOfMore(points, last, i, n);
    } else {
      var p, q := points[n - 1], points[n];
      RisingDays(p, q);
      var i := Intervals(points)[|Intervals(points)| - 1];
      LastInterval(p, q, i);
      assert i in Intervals(points) && IsInterval(points, i, n);
    }
  }

  lemma RisingDays(p: Point, q: Point)
    requires p.startedAt < q.startedAt
    ensures Days(p, q) > 0.0
  {
    DayQuotient((q.startedAt - p.startedAt) as real);
  }
}
