/** When a datastore runs out of free space, from the points its history gives. */
module Projection {
  import opened Common
  import opened LinearFit

  const DAY := 86_400_000_000_000

  /** A run's reading of the datastore; times are nanoseconds. */
  datatype Point = Point(runID: int, startedAt: int, capacityBytes: int, freeBytes: int)

  function UsedBytes(p: Point): int { if p.capacityBytes <= 0 then 0 else p.capacityBytes - p.freeBytes }

  function Days(a: Point, b: Point): real { (b.startedAt - a.startedAt) as real / DAY as real }

  datatype Thresholds = Thresholds(freePercent: real, freeBytes: real)

  datatype TargetBasis = Percent | Bytes

  datatype Confidence = Unknown | Low | Projected

  /** Why a projection is missing or weak. */
  datatype Reason =
    | AlreadyBelowFloor | FewerThan3Points | SpansLessThan1Day | NotShrinking
    | FewerThan5Points | SpansLessThan7Days | PoorFit | CapacityChanged | PartialRuns | RunGap

  datatype Outcome = Outcome(
    target: real, basis: TargetBasis, spanDays: real, slope: real, r2: real,
    crossesAt: Option<real>, daysRemaining: Option<real>, confidence: Confidence, reasons: seq<Reason>)

  /** The free space to keep: the larger of the two thresholds. */
  function Target(latest: Point, th: Thresholds): real {
    var percent := latest.capacityBytes as real * th.freePercent / 100.0;
    if th.freeBytes > percent then th.freeBytes else percent
  }

  /** The free space to keep is the percentage of the capacity or the number of bytes, whichever is
      larger, and says which. */
  predicate IsFloor(capacity: int, th: Thresholds, target: real, basis: TargetBasis) {
    match basis
    case Percent => target * 100.0 == capacity as real * th.freePercent && target >= th.freeBytes
    case Bytes => target == th.freeBytes && target * 100.0 > capacity as real * th.freePercent
  }

  /** What a reading says is in use. */
  function InUse(p: Point): int { if p.capacityBytes > 0 then p.capacityBytes - p.freeBytes else 0 }

  lemma InUseIs(p: Point)
    ensures UsedBytes(p) == InUse(p)
  {
  }

  lemma DayQuotient(dt: real)
    ensures dt / DAY as real * 86_400_000_000_000.0 == dt
  {
    Quotient(dt, DAY as real);
  }

  // ----- Gaps in the history

  function TotalGap(points: seq<Point>): real {
    if |points| < 2 then 0.0 else TotalGap(points[..|points| - 1]) + Days(points[|points| - 2], points[|points| - 1])
  }

  /** The gaps add up to the time from the first run to the last. */
  lemma {:induction false} GapsTelescope(points: seq<Point>)
    requires points != []
    ensures TotalGap(points) == Days(points[0], points[|points| - 1])
  {
    if |points| > 1 {
      var n := |points| - 1;
      GapsTelescope(points[..n]);
      SplitDays(points[0], points[n - 1], points[n]);
    }
  }

  lemma SplitDays(a: Point, b: Point, c: Point)
    ensures Days(a, b) + Days(b, c) == Days(a, c)
  {
    AddQuotients((b.startedAt - a.startedAt) as real, (c.startedAt - b.startedAt) as real, DAY as real);
  }

  lemma AddQuotients(a: real, b: real, n: real)
    requires n != 0.0
    ensures a / n + b / n == (a + b) / n
  {
    Quotient(a, n);
    Quotient(b, n);
    assert n * (a / n + b / n) == n * (a / n) + n * (b / n);
    IsQuotient(a + b, n, a / n + b / n);
  }

  predicate LargeGap(points: seq<Point>, average: real, i: nat)
    requires 0 < i < |points|
  {
    Days(points[i - 1], points[i]) > 30.0 && Days(points[i - 1], points[i]) > average * 2.0
  }

  ghost predicate GapOver(points: seq<Point>, average: real) {
    exists i :: 0 < i < |points| && LargeGap(points, average, i)
  }

  /** Some run came over 30 days, and over twice the average gap, after the one before it. */
  ghost predicate HasGap(points: seq<Point>) {
    |points| >= 3 && GapOver(points, Days(points[0], points[|points| - 1]) / (|points| - 1) as real)
  }

  method HasLargeGap(points: seq<Point>) returns (r: bool)
    ensures r <==> HasGap(points)
  {
    if |points| < 3 {
      return false;
    }
    var total := 0.0;
    for i := 1 to |points|
      invariant total == TotalGap(points[..i])
    {
      assert points[..i + 1][..i] == points[..i];
      total := total + Days(points[i - 1], points[i]);
    }
    assert points[..|points|] == points;
    GapsTelescope(points);
    var average := total / (|points| - 1) as real;
    for i := 1 to |points|
      invariant forall k :: 0 < k < i ==> !LargeGap(points, average, k)
    {
      if Days(points[i - 1], points[i]) > 30.0 && Days(points[i - 1], points[i]) > average * 2.0 {
        assert LargeGap(points, average, i);
        return true;
      }
    }
    r := false;
  }

  // ----- The line through the used space

  ghost function Times(points: seq<Point>): seq<real> {
    seq(|points|, i requires 0 <= i < |points| => Days(points[0], points[i]))
  }

  ghost function Used(points: seq<Point>): seq<real> {
    seq(|points|, i requires 0 <= i < |points| => UsedBytes(points[i]) as real)
  }

  /** The slope and R squared are those of a least-squares line. */
  ghost predicate FitsUsed(points: seq<Point>, slope: real, r2: real) {
    && points != []
    && var x, y := Times(points), Used(points);
      var s := SumsOf(x, y, Mean(x), Mean(y));
      (exists intercept :: IsFit(s, Mean(x), Mean(y), slope, intercept)) && IsR2(s, r2)
  }

  method FitUsed(points: seq<Point>) returns (slope: real, r2: real)
    requires points != []
    ensures FitsUsed(points, slope, r2)
  {
    var x, y: seq<real> := [], [];
    for i := 0 to |points|
      invariant x == Times(points)[..i] && y == Used(points)[..i]
    {
      x, y := x + [Days(points[0], points[i])], y + [UsedBytes(points[i]) as real];
    }
    assert x == Times(points) && y == Used(points);
    var intercept;
    slope, intercept, r2 := Fit(x, y);
  }

  /** The slope the projection uses is that of a line no other line fits better. */
  lemma SlopeIsBest(points: seq<Point>, slope: real, r2: real, m: real, b: real)
    requires FitsUsed(points, slope, r2)
    ensures exists intercept :: SSE(Times(points), Used(points), slope, intercept) <= SSE(Times(points), Used(points), m, b)
    ensures 0.0 <= r2 <= 1.0
  {
    var x, y := Times(points), Used(points);
    var s := SumsOf(x, y, Mean(x), Mean(y));
    var intercept :| IsFit(s, Mean(x), Mean(y), slope, intercept);
    FitIsBest(x, y, slope, intercept, m, b);
    R2IsExplained(x, y, slope, intercept, r2);
  }

  // ----- The projection

  /** Days until the line from the latest used space, growing by slope a day, leaves only the
      target free; none when it already does. */
  method DaysUntil(latestUsed: real, thresholdUsed: real, slope: real) returns (days: real)
    requires slope > 0.0
    ensures days >= 0.0
    ensures latestUsed + slope * days == if latestUsed >= thresholdUsed then latestUsed else thresholdUsed
    ensures latestUsed >= thresholdUsed ==> days == 0.0
  {
    days := (thresholdUsed - latestUsed) / slope;
    Quotient(thresholdUsed - latestUsed, slope);
    if days < 0.0 {
      days := 0.0;
    }
    if latestUsed >= thresholdUsed {
      NotPositive(thresholdUsed - latestUsed, slope);
    }
  }

  lemma NotPositive(a: real, n: real)
    requires n > 0.0 && a <= 0.0
    ensures a / n <= 0.0
  {
    Quotient(a, n);
  }

  predicate BelowFloor(points: seq<Point>, th: Thresholds) {
    points != [] && var latest := points[|points| - 1]; latest.freeBytes as real <= Target(latest, th)
  }

  function Span(points: seq<Point>): real {
    if |points| >= 2 then Days(points[0], points[|points| - 1]) else 0.0
  }

  predicate Weak(points: seq<Point>, r2: real, capacityChanged: bool, includePartial: bool, gap: bool) {
    |points| < 5 || Span(points) < 7.0 || r2 < 0.5 || capacityChanged || includePartial || gap
  }

  function WeakReasons(points: seq<Point>, r2: real, capacityChanged: bool, includePartial: bool, gap: bool): seq<Reason> {
    (if |points| < 5 then [FewerThan5Points] else [])
    + (if Span(points) < 7.0 then [SpansLessThan7Days] else [])
    + (if r2 < 0.5 then [PoorFit] else [])
    + (if capacityChanged then [CapacityChanged] else [])
    + (if includePartial then [PartialRuns] else [])
    + (if gap then [RunGap] else [])
  }

  method Start(points: seq<Point>, th: Thresholds) returns (o: Outcome)
    ensures o.spanDays == Span(points) && o.confidence == Unknown && o.slope == 0.0 && o.r2 == 0.0
    ensures points != [] ==> o.target == Target(points[|points| - 1], th)
    ensures points != [] ==> IsFloor(points[|points| - 1].capacityBytes, th, o.target, o.basis)
    ensures BelowFloor(points, th) ==>
      && o.daysRemaining == Some(0.0) && o.crossesAt == Some(points[|points| - 1].startedAt as real)
      && o.reasons == [AlreadyBelowFloor]
    ensures !BelowFloor(points, th) ==> o.daysRemaining == None && o.crossesAt == None && o.reasons == []
  {
    o := Outcome(0.0, Percent, 0.0, 0.0, 0.0, None, None, Unknown, []);
    if |points| > 0 {
      var latest := points[|points| - 1];
      var target := latest.capacityBytes as real * th.freePercent / 100.0;
      if th.freeBytes > target {
        target := th.freeBytes;
        o := o.(basis := Bytes);
      }
      o := o.(target := target);
      if latest.freeBytes as real <= target {
        o := o.(crossesAt := Some(latest.startedAt as real), daysRemaining := Some(0.0), reasons := [AlreadyBelowFloor]);
      }
    }
    if |points| >= 2 {
      o := o.(spanDays := Days(points[0], points[|points| - 1]));
    }
  }

  /** Whether there is a line to project along at all. */
  predicate Projects(points: seq<Point>, slope: real) { |points| >= 3 && Span(points) >= 1.0 && slope > 0.0 }

  /** How much is used, and how much may be. */
  function LatestUsed(points: seq<Point>): real
    requires points != []
  {
    UsedBytes(points[|points| - 1]) as real
  }

  function MayUse(points: seq<Point>, th: Thresholds): real
    requires points != []
  {
    points[|points| - 1].capacityBytes as real - Target(points[|points| - 1], th)
  }

  /** The line reaches the threshold in that many days, or has reached it. */
  ghost predicate Reaches(points: seq<Point>, th: Thresholds, slope: real, days: real, at: real)
    requires points != []
  {
    && days >= 0.0
    && LatestUsed(points) + slope * days
       == (if LatestUsed(points) >= MayUse(points, th) then LatestUsed(points) else MayUse(points, th))
    && (LatestUsed(points) >= MayUse(points, th) ==> days == 0.0)
    && at == points[|points| - 1].startedAt as real + days * DAY as real
  }

  method ReachThreshold(points: seq<Point>, th: Thresholds, target: real, slope: real) returns (days: real, at: real)
    requires points != [] && target == Target(points[|points| - 1], th) && slope > 0.0
    ensures Reaches(points, th, slope, days, at)
  {
    var latest := points[|points| - 1];
    days := DaysUntil(UsedBytes(latest) as real, latest.capacityBytes as real - target, slope);
    at := latest.startedAt as real + days * DAY as real;
  }

  method Rate(points: seq<Point>, r2: real, includePartial: bool, capacityChanged: bool)
    returns (confidence: Confidence, reasons: seq<Reason>)
    ensures confidence == if Weak(points, r2, capacityChanged, includePartial, HasGap(points)) then Low else Projected
    ensures reasons == WeakReasons(points, r2, capacityChanged, includePartial, HasGap(points))
  {
    var gap := HasLargeGap(points);
    if Weak(points, r2, capacityChanged, includePartial, gap) {
      return Low, WeakReasons(points, r2, capacityChanged, includePartial, gap);
    }
    return Projected, [];
  }

  /** A datastore already below its floor may not use more than it does. */
  lemma BelowFloorHasReached(points: seq<Point>, th: Thresholds)
    requires BelowFloor(points, th) && points[|points| - 1].capacityBytes >= 0 && points[|points| - 1].freeBytes >= 0
    ensures LatestUsed(points) >= MayUse(points, th)
  {
  }

  /** Why there is no projection, or a weak one, in order. */
  ghost function Reasons(points: seq<Point>, th: Thresholds, slope: real, r2: real, includePartial: bool, capacityChanged: bool): seq<Reason> {
    (if BelowFloor(points, th) then [AlreadyBelowFloor] else [])
    + if |points| < 3 then [FewerThan3Points]
      else if Span(points) < 1.0 then [SpansLessThan1Day]
      else if slope <= 0.0 then [NotShrinking]
      else WeakReasons(points, r2, capacityChanged, includePartial, HasGap(points))
  }

  /** Every reason but the floor counts against the confidence: it is high exactly when no other is
      given. */
  lemma ConfidentWithoutReasons(points: seq<Point>, th: Thresholds, slope: real, r2: real, includePartial: bool, capacityChanged: bool)
    ensures (forall reason :: reason in Reasons(points, th, slope, r2, includePartial, capacityChanged) ==> reason == AlreadyBelowFloor)
      <==> Projects(points, slope) && !Weak(points, r2, capacityChanged, includePartial, HasGap(points))
  {
    var all := Reasons(points, th, slope, r2, includePartial, capacityChanged);
    var n := if BelowFloor(points, th) then 1 else 0;
    if |all| > n {
      assert all[n] in all;
    }
  }

  method Project(points: seq<Point>, th: Thresholds, includePartial: bool, capacityChanged: bool) returns (o: Outcome)
    ensures points != [] ==> IsFloor(points[|points| - 1].capacityBytes, th, o.target, o.basis)
    ensures |points| >= 3 && Span(points) >= 1.0 ==> FitsUsed(points, o.slope, o.r2)
    ensures o.daysRemaining.Some? == o.crossesAt.Some? == (BelowFloor(points, th) || Projects(points, o.slope))
    ensures Projects(points, o.slope) ==> Reaches(points, th, o.slope, o.daysRemaining.value, o.crossesAt.value)
    ensures BelowFloor(points, th) && points[|points| - 1].capacityBytes >= 0 && points[|points| - 1].freeBytes >= 0
      ==> o.daysRemaining == Some(0.0)
    ensures o.confidence == Unknown <==> !Projects(points, o.slope)
    ensures o.confidence == Projected
      <==> Projects(points, o.slope) && !Weak(points, o.r2, capacityChanged, includePartial, HasGap(points))
    ensures o.reasons == Reasons(points, th, o.slope, o.r2, includePartial, capacityChanged)
  {
    o := Start(points, th);
    if |points| < 3 {
      o := o.(reasons := o.reasons + [FewerThan3Points]);
      return;
    }
    if o.spanDays < 1.0 {
      o := o.(reasons := o.reasons + [SpansLessThan1Day]);
      return;
    }
    var slope, r2 := FitUsed(points);
    if slope <= 0.0 {
      o := o.(slope := slope, r2 := r2, reasons := o.reasons + [NotShrinking]);
      return;
    }
    if BelowFloor(points, th) && points[|points| - 1].capacityBytes >= 0 && points[|points| - 1].freeBytes >= 0 {
      BelowFloorHasReached(points, th);
    }
    var days, at := ReachThreshold(points, th, o.target, slope);
    var confidence, reasons := Rate(points, r2, includePartial, capacityChanged);
    o := Outcome(o.target, o.basis, o.spanDays, slope, r2, Some(at), Some(days), confidence, o.reasons + reasons);
  }

  // ----- On the recorded values

  const DAY_NS := 86_400_000_000_000

  lemma DaysAgainst(a: Point, b: Point, k: int)
    ensures Days(a, b) < k as real <==> b.startedAt - a.startedAt < k * DAY_NS
    ensures Days(a, b) > k as real <==> b.startedAt - a.startedAt > k * DAY_NS
  {
    var dt := (b.startedAt - a.startedAt) as real;
    DayQuotient(dt);
    assert Days(a, b) * 86_400_000_000_000.0 == dt;
    assert (k * DAY_NS) as real == k as real * 86_400_000_000_000.0;
  }

  /** The time from the first point to the last. */
  function Length(points: seq<Point>): int { if points == [] then 0 else points[|points| - 1].startedAt - points[0].startedAt }

  /** Point i came over 30 days after the one before it, and over twice the average gap. */
  predicate LongGap(points: seq<Point>, i: int) {
    && 0 < i < |points|
    && var gap := points[i].startedAt - points[i - 1].startedAt;
      gap > 30 * DAY_NS && gap * (|points| - 1) > 2 * Length(points)
  }

  lemma LargeGapIs(points: seq<Point>, i: nat)
    requires |points| >= 3 && 0 < i < |points|
    ensures LargeGap(points, Days(points[0], points[|points| - 1]) / (|points| - 1) as real, i) <==> LongGap(points, i)
  {
    var n, total := (|points| - 1) as real, Days(points[0], points[|points| - 1]);
    var gap := Days(points[i - 1], points[i]);
    DaysAgainst(points[i - 1], points[i], 30);
    Quotient(total, n);
    AgainstAverage(gap, total, n, total / n);
    DayQuotient((points[i].startedAt - points[i - 1].startedAt) as real);
    DayQuotient(Length(points) as real);
    AgainstTotal(gap, total, points[i].startedAt - points[i - 1].startedAt, Length(points), |points| - 1);
  }

  lemma AgainstAverage(gap: real, total: real, n: real, average: real)
    requires n > 0.0 && n * average == total
    ensures gap > average * 2.0 <==> gap * n > 2.0 * total
  {
    assert gap * n - 2.0 * total == (gap - average * 2.0) * n;
  }

  lemma AgainstTotal(gap: real, total: real, g: int, t: int, n: int)
    requires gap * 86_400_000_000_000.0 == g as real && total * 86_400_000_000_000.0 == t as real
    ensures gap * n as real > 2.0 * total <==> g * n > 2 * t
  {
    assert (gap * n as real - 2.0 * total) * 86_400_000_000_000.0 == g as real * n as real - 2.0 * t as real;
    assert (g * n) as real == g as real * n as real;
  }

  lemma HasGapIs(points: seq<Point>)
    ensures HasGap(points) <==> |points| >= 3 && exists i :: LongGap(points, i)
  {
    if |points| >= 3 {
      var average := Days(points[0], points[|points| - 1]) / (|points| - 1) as real;
      if i :| 0 < i < |points| && LargeGap(points, average, i) {
        LargeGapIs(points, i);
      }
      if i :| LongGap(points, i) {
        LargeGapIs(points, i);
        assert LargeGap(points, average, i);
      }
    }
  }

  /** A projection has high confidence exactly with five points over a week, a growing line that explains
      at least half the spread, one capacity, whole runs only and no long gap. */
  lemma ConfidentExactlyWhen(points: seq<Point>, slope: real, r2: real, includePartial: bool, capacityChanged: bool)
    ensures Projects(points, slope) && !Weak(points, r2, capacityChanged, includePartial, HasGap(points)) <==>
      && |points| >= 5 && Length(points) >= 7 * DAY_NS && slope > 0.0 && r2 >= 0.5
      && !capacityChanged && !includePartial && !exists i :: LongGap(points, i)
  {
    HasGapIs(points);
    if |points| >= 2 {
      DaysAgainst(points[0], points[|points| - 1], 1);
      DaysAgainst(points[0], points[|points| - 1], 7);
    }
  }

  /** There is a day at all exactly with three points over a day and a growing line. */
  lemma ProjectsExactlyWhen(points: seq<Point>, slope: real)
    ensures Projects(points, slope) <==> |points| >= 3 && Length(points) >= DAY_NS && slope > 0.0
  {
    if |points| >= 2 {
      DaysAgainst(points[0], points[|points| - 1], 1);
    }
  }

  /** On the projected day the line has grown from what is in use to the capacity less the floor, unless
      it was past that already. */
  lemma ReachesTheFloor(points: seq<Point>, th: Thresholds, slope: real, days: real, at: real, floor: real, basis: TargetBasis)
    requires points != [] && Reaches(points, th, slope, days, at) && IsFloor(points[|points| - 1].capacityBytes, th, floor, basis)
    ensures var latest := points[|points| - 1];
      var used, may := InUse(latest) as real, latest.capacityBytes as real - floor;
      && (if used >= may then days == 0.0 else used + slope * days == may)
      && at == latest.startedAt as real + days * 86_400_000_000_000.0
  {
    InUseIs(points[|points| - 1]);
  }

  /** The times and sizes the line is fitted through. */
  lemma FittedThrough(points: seq<Point>, i: nat)
    requires i < |points|
    ensures |Times(points)| == |Used(points)| == |points|
    ensures Times(points)[i] * 86_400_000_000_000.0 == (points[i].startedAt - points[0].startedAt) as real
    ensures Used(points)[i] == InUse(points[i]) as real
  {
    DayQuotient((points[i].startedAt - points[0].startedAt) as real);
    InUseIs(points[i]);
  }

  lemma BelowFloorIs(points: seq<Point>, th: Thresholds, floor: real, basis: TargetBasis)
    requires points != [] && IsFloor(points[|points| - 1].capacityBytes, th, floor, basis)
    ensures BelowFloor(points, th) <==> points[|points| - 1].freeBytes as real <= floor
  {
  }
}
