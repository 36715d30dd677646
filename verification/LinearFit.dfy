/** Least squares over the used space of a datastore, and when the free space runs out. */
module LinearFit {

  function Total(s: seq<real>): real {
    if s == [] then 0.0 else Total(s[..|s| - 1]) + s[|s| - 1]
  }

  function Mean(s: seq<real>): real
    requires s != []
  {
    Total(s) / (|s| as real)
  }

  /** Summed over the points, from some centre: the deviations dx and dy, and their products. */
  datatype Sums = Sums(yy: real, xy: real, xx: real, dy: real, dx: real, n: real)

  const Zero := Sums(0.0, 0.0, 0.0, 0.0, 0.0, 0.0)

  function Plus(s: Sums, u: real, v: real): Sums {
    Sums(s.yy + v * v, s.xy + u * v, s.xx + u * u, s.dy + v, s.dx + u, s.n + 1.0)
  }

  function SumsOf(x: seq<real>, y: seq<real>, mx: real, my: real): Sums
    requires |x| == |y|
  {
    if x == [] then Zero
    else
      var n := |x| - 1;
      Plus(SumsOf(x[..n], y[..n], mx, my), x[n] - mx, y[n] - my)
  }

  function Residual(x: real, y: real, slope: real, intercept: real): real { y - (slope * x + intercept) }

  function Squared(r: real): (s: real)
    ensures s >= 0.0
  {
    r * r
  }

  /** The summed squared residuals of a line. */
  function SSE(x: seq<real>, y: seq<real>, slope: real, intercept: real): real
    requires |x| == |y|
  {
    if x == [] then 0.0
    else
      var n := |x| - 1;
      SSE(x[..n], y[..n], slope, intercept) + Squared(Residual(x[n], y[n], slope, intercept))
  }

  // ----- The loops

  method SumOf(s: seq<real>) returns (sum: real)
    ensures sum == Total(s)
  {
    sum := 0.0;
    for i := 0 to |s|
      invariant sum == Total(s[..i])
    {
      assert s[..i + 1][..i] == s[..i];
      sum := sum + s[i];
    }
    assert s[..|s|] == s;
  }

  /** The sums of squares and products a fit reads. */
  predicate Reads(s: Sums, xx: real, xy: real, yy: real) { s.xx == xx && s.xy == xy && s.yy == yy }

  lemma SumsNext(x: seq<real>, y: seq<real>, i: nat, mx: real, my: real)
    requires |x| == |y| && i < |x|
    ensures SumsOf(x[..i + 1], y[..i + 1], mx, my) == Plus(SumsOf(x[..i], y[..i], mx, my), x[i] - mx, y[i] - my)
  {
    assert x[..i + 1][..i] == x[..i] && y[..i + 1][..i] == y[..i];
  }

  method SpreadOne(xi: real, yi: real, mx: real, my: real, xx0: real, xy0: real, yy0: real, ghost s: Sums)
    returns (xx: real, xy: real, yy: real)
    requires Reads(s, xx0, xy0, yy0)
    ensures Reads(Plus(s, xi - mx, yi - my), xx, xy, yy)
  {
    var dx, dy := xi - mx, yi - my;
    xx, xy, yy := xx0 + dx * dx, xy0 + dx * dy, yy0 + dy * dy;
    PlusReads(s, xx0, xy0, yy0, dx, dy);
  }

  lemma PlusReads(s: Sums, xx: real, xy: real, yy: real, dx: real, dy: real)
    requires Reads(s, xx, xy, yy)
    ensures Reads(Plus(s, dx, dy), xx + dx * dx, xy + dx * dy, yy + dy * dy)
  {
  }

  method Spreads(x: seq<real>, y: seq<real>, mx: real, my: real) returns (xx: real, xy: real, yy: real)
    requires |x| == |y|
    ensures Reads(SumsOf(x, y, mx, my), xx, xy, yy)
  {
    xx, xy, yy := 0.0, 0.0, 0.0;
    ghost var s := Zero;
    for i := 0 to |x|
      invariant s == SumsOf(x[..i], y[..i], mx, my)
      invariant Reads(s, xx, xy, yy)
    {
      SumsNext(x, y, i, mx, my);
      xx, xy, yy := SpreadOne(x[i], y[i], mx, my, xx, xy, yy, s);
      s := Plus(s, x[i] - mx, y[i] - my);
    }
    assert x[..|x|] == x && y[..|y|] == y;
  }

  /** The line goes through both means, its slope explains how y covaries with x, and it is flat
      when x does not vary. */
  predicate IsFit(s: Sums, mx: real, my: real, slope: real, intercept: real) {
    intercept == my - slope * mx && slope * s.xx == s.xy && (s.xx == 0.0 ==> slope == 0.0)
  }

  predicate IsR2(s: Sums, r2: real) {
    if s.xx != 0.0 && s.yy > 0.0 && s.xx * s.yy != 0.0 then r2 == (s.xy * s.xy) / (s.xx * s.yy) else r2 == 0.0
  }

  method FitFrom(ghost s: Sums, xx: real, xy: real, yy: real, mx: real, my: real)
    returns (slope: real, intercept: real, r2: real)
    requires Reads(s, xx, xy, yy) && xx >= 0.0 && (xx == 0.0 ==> xy == 0.0)
    ensures IsFit(s, mx, my, slope, intercept) && IsR2(s, r2)
  {
    if xx == 0.0 {
      return 0.0, my, 0.0;
    }
    Quotient(xy, xx);
    slope, intercept, r2 := xy / xx, my - (xy / xx) * mx, 0.0;
    if yy > 0.0 {
      PositiveProduct(xx, yy);
      r2 := (xy * xy) / (xx * yy);
    }
  }

  method Fit(x: seq<real>, y: seq<real>) returns (slope: real, intercept: real, r2: real)
    requires |x| == |y| > 0
    ensures var s := SumsOf(x, y, Mean(x), Mean(y));
      IsFit(s, Mean(x), Mean(y), slope, intercept) && IsR2(s, r2)
  {
    var sx := SumOf(x);
    var sy := SumOf(y);
    var mx, my := sx / (|x| as real), sy / (|y| as real);
    var xx, xy, yy := Spreads(x, y, mx, my);
    SquaresNeverNegative(x, y, mx, my);
    if xx == 0.0 {
      FlatSpread(x, y, mx, my);
    }
    slope, intercept, r2 := FitFrom(SumsOf(x, y, mx, my), xx, xy, yy, mx, my);
  }

  // ----- Small facts about products

  lemma PositiveProduct(a: real, b: real)
    requires a > 0.0 && b > 0.0
    ensures a * b > 0.0
  {
  }

  lemma NonNegativeProduct(a: real, b: real)
    requires a >= 0.0 && b >= 0.0
    ensures a * b >= 0.0
  {
  }

  lemma SquareNotNegative(d: real)
    ensures d * d >= 0.0
  {
  }

  lemma ZeroProduct(a: real, b: real)
    requires a * b == 0.0
    ensures a == 0.0 || b == 0.0
  {
  }

  lemma NonNegativeFactor(a: real, b: real)
    requires a > 0.0 && a * b >= 0.0
    ensures b >= 0.0
  {
  }

  lemma Quotient(a: real, n: real)
    requires n != 0.0
    ensures n * (a / n) == a && (a / n) * n == a
  {
  }

  lemma Undo(n: real, q: real)
    requires n != 0.0
    ensures (n * q) / n == q
  {
  }

  lemma IsQuotient(a: real, n: real, q: real)
    requires n != 0.0 && n * q == a
    ensures a / n == q
  {
    Undo(n, q);
  }

  lemma OneMinus(a: real, n: real)
    requires n != 0.0
    ensures (n - a) / n == 1.0 - a / n
  {
    Quotient(a, n);
    var q := a / n;
    assert n * (1.0 - q) == n - n * q;
    IsQuotient(n - a, n, 1.0 - q);
  }

  lemma Cancel(a: real, b: real, k: real)
    requires b != 0.0 && k != 0.0 && k * b != 0.0
    ensures (k * a) / (k * b) == a / b
  {
    Quotient(a, b);
    var q := a / b;
    assert k * (b * q) == (k * b) * q;
    Undo(k * b, q);
  }

  lemma Ratio(a: real, n: real)
    requires 0.0 <= a <= n && n > 0.0
    ensures 0.0 <= a / n <= 1.0
  {
    Quotient(a, n);
    Quotient(n - a, n);
    OneMinus(a, n);
    NonNegativeFactor(n, a / n);
    NonNegativeFactor(n, (n - a) / n);
  }

  // ----- Sums of squares

  lemma {:induction false} SquaresNeverNegative(x: seq<real>, y: seq<real>, mx: real, my: real)
    requires |x| == |y|
    ensures SumsOf(x, y, mx, my).xx >= 0.0
  {
    if x != [] {
      var n := |x| - 1;
      SquaresNeverNegative(x[..n], y[..n], mx, my);
      SquareNotNegative(x[n] - mx);
    }
  }

  lemma ZeroSquare(u: real)
    requires u * u == 0.0
    ensures u == 0.0
  {
    ZeroProduct(u, u);
  }

  lemma NoneOfTwo(rest: real, u: real)
    requires rest >= 0.0 && rest + u * u == 0.0
    ensures rest == 0.0
    ensures u == 0.0
  {
    SquareNotNegative(u);
    assert u * u == 0.0;
    ZeroSquare(u);
  }

  lemma FlatStep(s: Sums, u: real, v: real)
    requires s.xx >= 0.0 && Plus(s, u, v).xx == 0.0
    ensures s.xx == 0.0 && Plus(s, u, v).xy == s.xy
  {
    NoneOfTwo(s.xx, u);
  }

  /** Without spread in x, every x is the mean, so nothing covaries with it. */
  lemma {:induction false} FlatSpread(x: seq<real>, y: seq<real>, mx: real, my: real)
    requires |x| == |y| && SumsOf(x, y, mx, my).xx == 0.0
    ensures SumsOf(x, y, mx, my).xy == 0.0
  {
    if x != [] {
      var n := |x| - 1;
      SquaresNeverNegative(x[..n], y[..n], mx, my);
      FlatStep(SumsOf(x[..n], y[..n], mx, my), x[n] - mx, y[n] - my);
      FlatSpread(x[..n], y[..n], mx, my);
    }
  }

  /** What the summed squared residuals of a line are, from the sums around any centre and the
      distance c the line passes it at. */
  function Expanded(s: Sums, m: real, c: real): real {
    s.yy - 2.0 * m * s.xy + m * m * s.xx + 2.0 * c * (s.dy - m * s.dx) + s.n * (c * c)
  }

  /** One more point, u and v from the centre, adds the square of its residual. */
  lemma Polynomial(yy: real, xy: real, xx: real, dy: real, dx: real, n: real, u: real, v: real, m: real, c: real)
    ensures (yy + v * v) - 2.0 * m * (xy + u * v) + m * m * (xx + u * u) + 2.0 * c * ((dy + v) - m * (dx + u)) + (n + 1.0) * (c * c)
         == (yy - 2.0 * m * xy + m * m * xx + 2.0 * c * (dy - m * dx) + n * (c * c)) + (v - m * u + c) * (v - m * u + c)
  {
  }

  lemma ExpandedPlus(s: Sums, u: real, v: real, m: real, c: real)
    ensures Expanded(Plus(s, u, v), m, c) == Expanded(s, m, c) + Squared(v - m * u + c)
  {
    Polynomial(s.yy, s.xy, s.xx, s.dy, s.dx, s.n, u, v, m, c);
  }

  lemma ResidualAt(x: real, y: real, mx: real, my: real, m: real, b: real, c: real)
    requires c == my - m * mx - b
    ensures Residual(x, y, m, b) == (y - my) - m * (x - mx) + c
  {
    assert m * (x - mx) == m * x - m * mx;
  }

  /** The squared residuals add up to whatever value of the sums grows by each of them. */
  lemma {:induction false} ResidualsAddUp(x: seq<real>, y: seq<real>, mx: real, my: real, m: real, b: real, value: Sums -> real)
    requires |x| == |y|
    requires value(Zero) == 0.0
    requires forall s, xi, yi :: value(Plus(s, xi - mx, yi - my)) == value(s) + Squared(Residual(xi, yi, m, b))
    ensures SSE(x, y, m, b) == value(SumsOf(x, y, mx, my))
  {
    if x != [] {
      var n := |x| - 1;
      ResidualsAddUp(x[..n], y[..n], mx, my, m, b, value);
      var s := SumsOf(x[..n], y[..n], mx, my);
      assert value(Plus(s, x[n] - mx, y[n] - my)) == value(s) + Squared(Residual(x[n], y[n], m, b));
    }
  }

  lemma ExpandedGrows(s: Sums, xi: real, yi: real, mx: real, my: real, m: real, b: real, c: real)
    requires c == my - m * mx - b
    ensures Expanded(Plus(s, xi - mx, yi - my), m, c) == Expanded(s, m, c) + Squared(Residual(xi, yi, m, b))
  {
    ResidualAt(xi, yi, mx, my, m, b, c);
    ExpandedPlus(s, xi - mx, yi - my, m, c);
  }

  function Expansion(m: real, c: real): Sums -> real { s => Expanded(s, m, c) }

  lemma ExpansionGrows(mx: real, my: real, m: real, b: real, c: real)
    requires c == my - m * mx - b
    ensures forall s, xi, yi ::
      Expansion(m, c)(Plus(s, xi - mx, yi - my)) == Expansion(m, c)(s) + Squared(Residual(xi, yi, m, b))
  {
    forall s, xi, yi
      ensures Expansion(m, c)(Plus(s, xi - mx, yi - my)) == Expansion(m, c)(s) + Squared(Residual(xi, yi, m, b))
    {
      ExpandedGrows(s, xi, yi, mx, my, m, b, c);
    }
  }

  lemma ResidualsExpand(x: seq<real>, y: seq<real>, mx: real, my: real, m: real, b: real, c: real)
    requires |x| == |y| && c == my - m * mx - b
    ensures SSE(x, y, m, b) == Expanded(SumsOf(x, y, mx, my), m, c)
  {
    ExpansionGrows(mx, my, m, b, c);
    ResidualsAddUp(x, y, mx, my, m, b, Expansion(m, c));
  }

  predicate Deviates(s: Sums, x: real, y: real, n: real, mx: real, my: real) {
    s.dx == x - n * mx && s.dy == y - n * my && s.n == n
  }

  lemma DeviatesNext(s: Sums, x: real, y: real, n: real, mx: real, my: real, xi: real, yi: real)
    requires Deviates(s, x, y, n, mx, my)
    ensures Deviates(Plus(s, xi - mx, yi - my), x + xi, y + yi, n + 1.0, mx, my)
  {
    assert (n + 1.0) * mx == n * mx + mx && (n + 1.0) * my == n * my + my;
  }

  lemma {:induction false} DeviationIs(x: seq<real>, y: seq<real>, mx: real, my: real)
    requires |x| == |y|
    ensures Deviates(SumsOf(x, y, mx, my), Total(x), Total(y), |x| as real, mx, my)
  {
    if x != [] {
      var n := |x| - 1;
      DeviationIs(x[..n], y[..n], mx, my);
      DeviatesNext(SumsOf(x[..n], y[..n], mx, my), Total(x[..n]), Total(y[..n]), n as real, mx, my, x[n], y[n]);
    }
  }

  lemma Cancels(s: Sums, x: real, y: real, n: real)
    requires n > 0.0 && Deviates(s, x, y, n, x / n, y / n)
    ensures s.dx == 0.0 && s.dy == 0.0 && s.n > 0.0
  {
    Quotient(x, n);
    Quotient(y, n);
  }

  lemma NoDeviationFromMean(x: seq<real>, y: seq<real>)
    requires |x| == |y| > 0
    ensures var s := SumsOf(x, y, Mean(x), Mean(y)); s.dx == 0.0 && s.dy == 0.0 && s.n > 0.0
  {
    DeviationIs(x, y, Mean(x), Mean(y));
    Cancels(SumsOf(x, y, Mean(x), Mean(y)), Total(x), Total(y), |x| as real);
  }

  // ----- What the fit promises

  lemma Distance(xx: real, slope: real, m: real)
    ensures ((m - slope) * (m - slope)) * xx == m * m * xx - 2.0 * (m * (slope * xx)) + slope * (slope * xx)
  {
  }

  lemma CompleteTheSquare(s: Sums, slope: real, m: real, c: real)
    requires slope * s.xx == s.xy && s.xx >= 0.0 && s.n >= 0.0 && s.dx == 0.0 && s.dy == 0.0
    ensures Expanded(s, slope, 0.0) == s.yy - slope * s.xy
    ensures Expanded(s, slope, 0.0) <= Expanded(s, m, c)
  {
    var d := m - slope;
    SquareNotNegative(d);
    SquareNotNegative(c);
    NonNegativeProduct(d * d, s.xx);
    NonNegativeProduct(s.n, c * c);
    Distance(s.xx, slope, m);
    assert m * s.xy == m * (slope * s.xx) && slope * s.xy == slope * (slope * s.xx);
    assert slope * slope * s.xx == slope * (slope * s.xx);
    assert Expanded(s, m, c) == s.yy - 2.0 * (m * s.xy) + m * m * s.xx + s.n * (c * c);
    assert Expanded(s, slope, 0.0) == s.yy - 2.0 * (slope * s.xy) + slope * slope * s.xx;
  }

  /** No other line has a smaller sum of squared residuals. */
  lemma FitIsBest(x: seq<real>, y: seq<real>, slope: real, intercept: real, m: real, b: real)
    requires |x| == |y| > 0 && IsFit(SumsOf(x, y, Mean(x), Mean(y)), Mean(x), Mean(y), slope, intercept)
    ensures SSE(x, y, slope, intercept) <= SSE(x, y, m, b)
  {
    var mx, my := Mean(x), Mean(y);
    var c := my - m * mx - b;
    ResidualsExpand(x, y, mx, my, slope, intercept, 0.0);
    ResidualsExpand(x, y, mx, my, m, b, c);
    SquaresNeverNegative(x, y, mx, my);
    NoDeviationFromMean(x, y);
    CompleteTheSquare(SumsOf(x, y, mx, my), slope, m, c);
  }

  lemma {:induction false} SSENeverNegative(x: seq<real>, y: seq<real>, m: real, b: real)
    requires |x| == |y|
    ensures SSE(x, y, m, b) >= 0.0
  {
    if x != [] {
      SSENeverNegative(x[..|x| - 1], y[..|x| - 1], m, b);
    }
  }

  lemma R2Algebra(sse: real, xx: real, xy: real, yy: real, slope: real)
    requires xx > 0.0 && yy > 0.0 && slope * xx == xy && sse == yy - slope * xy && sse >= 0.0
    ensures xx * yy != 0.0 && (xy * xy) / (xx * yy) == 1.0 - sse / yy
    ensures 0.0 <= (xy * xy) / (xx * yy) <= 1.0
  {
    var part := slope * xy;
    assert xx * part == xy * xy;
    PositiveProduct(xx, yy);
    SquareNotNegative(xy);
    NonNegativeFactor(xx, part);
    Cancel(part, yy, xx);
    OneMinus(part, yy);
    Ratio(part, yy);
  }

  lemma R2FromSums(s: Sums, slope: real, sse: real, r2: real)
    requires s.xx > 0.0 && s.yy > 0.0 && slope * s.xx == s.xy && sse == s.yy - slope * s.xy && sse >= 0.0 && IsR2(s, r2)
    ensures 0.0 <= r2 <= 1.0 && r2 == 1.0 - sse / s.yy
  {
    R2Algebra(sse, s.xx, s.xy, s.yy, slope);
  }

  /** R squared lies between 0 and 1, and is the share of the spread in y that the line explains. */
  lemma R2IsExplained(x: seq<real>, y: seq<real>, slope: real, intercept: real, r2: real)
    requires |x| == |y| > 0
    requires var s := SumsOf(x, y, Mean(x), Mean(y)); IsFit(s, Mean(x), Mean(y), slope, intercept) && IsR2(s, r2)
    ensures 0.0 <= r2 <= 1.0
    ensures var s := SumsOf(x, y, Mean(x), Mean(y));
      s.xx > 0.0 && s.yy > 0.0 ==> r2 == 1.0 - SSE(x, y, slope, intercept) / s.yy
  {
    var mx, my := Mean(x), Mean(y);
    var s := SumsOf(x, y, mx, my);
    SquaresNeverNegative(x, y, mx, my);
    if s.xx > 0.0 && s.yy > 0.0 {
      ResidualsExpand(x, y, mx, my, slope, intercept, 0.0);
      NoDeviationFromMean(x, y);
      CompleteTheSquare(s, slope, slope, 0.0);
      SSENeverNegative(x, y, slope, intercept);
      R2FromSums(s, slope, SSE(x, y, slope, intercept), r2);
    }
  }

  lemma {:induction false} TotalOfEqual(x: seq<real>, v: real)
    requires forall i :: 0 <= i < |x| ==> x[i] == v
    ensures Total(x) == |x| as real * v
  {
    if x != [] {
      TotalOfEqual(x[..|x| - 1], v);
      assert |x| as real * v == (|x| - 1) as real * v + v;
    }
  }

  lemma {:induction false} NoSpread(x: seq<real>, y: seq<real>, mx: real, my: real)
    requires |x| == |y| && forall i :: 0 <= i < |x| ==> x[i] == mx
    ensures SumsOf(x, y, mx, my).xx == 0.0
  {
    if x != [] {
      NoSpread(x[..|x| - 1], y[..|y| - 1], mx, my);
      assert x[|x| - 1] - mx == 0.0;
    }
  }

  lemma MeanOfEqual(x: seq<real>)
    requires x != [] && forall i :: 0 <= i < |x| ==> x[i] == x[0]
    ensures Mean(x) == x[0]
  {
    TotalOfEqual(x, x[0]);
    IsQuotient(Total(x), |x| as real, x[0]);
  }

  lemma FlatWithoutSpread(s: Sums, mx: real, my: real, slope: real, intercept: real)
    requires IsFit(s, mx, my, slope, intercept) && s.xx == 0.0
    ensures slope == 0.0 && intercept == my
  {
  }

  /** Points of one time give a flat line through their mean. */
  lemma FlatAtOneTime(x: seq<real>, y: seq<real>, slope: real, intercept: real)
    requires |x| == |y| > 0 && forall i :: 0 <= i < |x| ==> x[i] == x[0]
    requires IsFit(SumsOf(x, y, Mean(x), Mean(y)), Mean(x), Mean(y), slope, intercept)
    ensures slope == 0.0 && intercept == Total(y) / |y| as real
  {
    MeanOfEqual(x);
    NoSpread(x, y, Mean(x), Mean(y));
    FlatWithoutSpread(SumsOf(x, y, Mean(x), Mean(y)), Mean(x), Mean(y), slope, intercept);
  }
}
