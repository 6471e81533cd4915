/** Forecasts of a daily series, over exact reals:
    services/analytics-service/internal/controller/service.go. Dates are day numbers. */
module Forecast {
  import opened Statistics

  datatype Point = Point(date: int, value: real, low: real, high: real)

  function Values(points: seq<Point>): (ys: seq<real>)
    ensures |ys| == |points| && forall i | 0 <= i < |ys| :: ys[i] == points[i].value
  {
    seq(|points|, i requires 0 <= i < |points| => points[i].value)
  }

  function NonNegative(v: real): real {
    if v < 0.0 then 0.0 else v
  }

  // ---------- Spread ----------

  /** The standard deviation as the service takes it: nothing for fewer than two numbers. */
  function Spread(sqrt: real -> real, xs: seq<real>): real {
    if |xs| < 2 then 0.0 else sqrt(NonNegative(Variance(xs)))
  }

  method StdDev(sqrt: real -> real, xs: seq<real>) returns (d: real)
    ensures d == Spread(sqrt, xs)
  {
    if |xs| < 2 {
      return 0.0;
    }
    var sum, sumSq := 0.0, 0.0;
    for i := 0 to |xs|
      invariant sum == Sum(xs[..i]) && sumSq == SumSq(xs[..i])
    {
      SumNext(xs, i);
      sum := sum + xs[i];
      sumSq := sumSq + xs[i] * xs[i];
    }
    assert xs[..|xs|] == xs;
    var n := |xs| as real;
    var mean := sum / n;
    var variance := sumSq / n - mean * mean;
    VarianceOf(xs, n, mean, variance);
    if variance < 0.0 {
      variance := 0.0;
    }
    d := sqrt(variance);
  }

  // ---------- The fitted line ----------

  function SumX(n: nat): real {
    if n == 0 then 0.0 else SumX(n - 1) + (n - 1) as real
  }

  function SumXX(n: nat): real {
    if n == 0 then 0.0 else SumXX(n - 1) + Square((n - 1) as real)
  }

  /** The sum of the numbers, each times its position. */
  function Weighted(ys: seq<real>): real {
    if ys == [] then 0.0 else Weighted(ys[..|ys| - 1]) + Times((|ys| - 1) as real, ys[|ys| - 1])
  }

  datatype Line = Line(intercept: real, slope: real)

  function At(l: Line, i: int): real {
    l.intercept + l.slope * i as real
  }

  function Determinant(n: real, sx: real, sxx: real): real {
    n * sxx - sx * sx
  }

  function Denom(n: nat): real {
    Determinant(n as real, SumX(n), SumXX(n))
  }

  function Slope(n: real, sx: real, sy: real, sxy: real, denom: real): real
    requires denom != 0.0
  {
    (n * sxy - sx * sy) / denom
  }

  function Intercept(n: real, sx: real, sy: real, slope: real): real
    requires n != 0.0
  {
    (sy - slope * sx) / n
  }

  function Solved(n: real, sx: real, sy: real, sxy: real, denom: real): Line
    requires n != 0.0 && denom != 0.0
  {
    var slope := Slope(n, sx, sy, sxy, denom);
    Line(Intercept(n, sx, sy, slope), slope)
  }

  /** The line that `forecastLinear` computes. */
  function Fitted(ys: seq<real>): Line
    requires |ys| >= 2
  {
    DenomClosed(|ys|);
    Solved(|ys| as real, SumX(|ys|), Sum(ys), Weighted(ys), Denom(|ys|))
  }

  function Residuals(ys: seq<real>, l: Line): (rs: seq<real>)
    ensures |rs| == |ys| && forall i | 0 <= i < |ys| :: rs[i] == ys[i] - At(l, i)
  {
    seq(|ys|, i requires 0 <= i < |ys| => ys[i] - At(l, i))
  }

  function SquaredError(ys: seq<real>, l: Line): real {
    SumSq(Residuals(ys, l))
  }

  // ---------- The denominator ----------

  function Triangle(m: real): real {
    m * (m - 1.0)
  }

  function Pyramid(m: real): real {
    m * (m - 1.0) * (2.0 * m - 1.0)
  }

  lemma {:induction false} SumXClosed(n: nat)
    ensures 2.0 * SumX(n) == Triangle(n as real)
  {
    if n > 0 { SumXClosed(n - 1); }
  }

  lemma {:induction false} SumXXClosed(n: nat)
    ensures 6.0 * SumXX(n) == Pyramid(n as real)
  {
    if n > 0 {
      SumXXClosed(n - 1);
      PyramidStep(n as real);
      hide Pyramid, Square;
    }
  }

  lemma PyramidStep(m: real)
    ensures Pyramid(m - 1.0) + 6.0 * Square(m - 1.0) == Pyramid(m)
  {
  }

  lemma DenomAlgebra(m: real, sx: real, sxx: real)
    requires 2.0 * sx == Triangle(m) && 6.0 * sxx == Pyramid(m)
    ensures 12.0 * Determinant(m, sx, sxx) == Times(Square(m), Square(m) - 1.0)
  {
    assert sx == m * (m - 1.0) / 2.0 && sxx == m * (m - 1.0) * (2.0 * m - 1.0) / 6.0;
  }

  lemma TwoOrMore(m: real)
    requires m >= 2.0
    ensures Times(Square(m), Square(m) - 1.0) > 0.0
  {
    TimesPositive(m - 1.0, m + 1.0);
    assert Times(m - 1.0, m + 1.0) == Square(m) - 1.0;
    hide Square, Times;
    TimesPositive(Square(m), Square(m) - 1.0);
  }

  /** The denominator of the slope is n^2 (n^2 - 1) / 12, so from two points on it is never zero. */
  lemma DenomClosed(n: nat)
    ensures 12.0 * Denom(n) == Times(Square(n as real), Square(n as real) - 1.0)
    ensures n >= 2 ==> Denom(n) > 0.0
  {
    hide SumX, SumXX, Determinant, Triangle, Pyramid, Square, Times;
    SumXClosed(n);
    SumXXClosed(n);
    DenomAlgebra(n as real, SumX(n), SumXX(n));
    if n >= 2 {
      TwoOrMore(n as real);
    }
  }

  // ---------- The fit is the best line ----------

  function Mix(p: real, q: real, l: Line): real {
    l.intercept * p + l.slope * q
  }

  lemma MixStep(p: real, q: real, u: real, v: real, l: Line)
    ensures Mix(p + u, q + v, l) == Mix(p, q, l) + Mix(u, v, l)
  {
  }

  lemma MixTerm(i: int, k: real, l: Line)
    requires k == i as real
    ensures Mix(1.0, k, l) == At(l, i)
    ensures Mix(k, Square(k), l) == Times(k, At(l, i))
  {
  }

  lemma {:induction false} ResidualSum(ys: seq<real>, l: Line)
    ensures Sum(Residuals(ys, l)) == Sum(ys) - Mix(|ys| as real, SumX(|ys|), l)
  {
    if ys != [] {
      var n := |ys| - 1;
      ResidualSum(ys[..n], l);
      assert Residuals(ys, l)[..n] == Residuals(ys[..n], l);
      MixStep(n as real, SumX(n), 1.0, n as real, l);
      MixTerm(n, n as real, l);
      hide Mix, At;
    }
  }

  lemma {:induction false} ResidualWeighted(ys: seq<real>, l: Line)
    ensures Weighted(Residuals(ys, l)) == Weighted(ys) - Mix(SumX(|ys|), SumXX(|ys|), l)
  {
    if ys != [] {
      var n := |ys| - 1;
      var k := n as real;
      hide Mix, At, Times, Square;
      ResidualWeighted(ys[..n], l);
      assert Residuals(ys, l)[..n] == Residuals(ys[..n], l);
      MixStep(SumX(n), SumXX(n), k, Square(k), l);
      MixTerm(n, k, l);
      Distribute(k, ys[n], At(l, n));
    }
  }

  lemma Distribute(k: real, y: real, p: real)
    ensures Times(k, y - p) == Times(k, y) - Times(k, p)
  {
  }

  lemma SolvesNormalEquations(n: real, sx: real, sxx: real, sy: real, sxy: real, d: real, l: Line)
    requires n > 0.0 && d == Determinant(n, sx, sxx) && d != 0.0 && l == Solved(n, sx, sy, sxy, d)
    ensures Mix(n, sx, l) == sy && Mix(sx, sxx, l) == sxy
  {
    assert l.slope * d == n * sxy - sx * sy;
    assert l.intercept * n == sy - l.slope * sx;
    TimesSlope(n, sx, sxx, l.slope);
    assert n * (l.intercept * sx) == sx * sy - l.slope * (sx * sx);
    assert n * Mix(sx, sxx, l) == n * sxy;
    CancelFactor(n, Mix(sx, sxx, l), sxy);
  }

  lemma TimesSlope(n: real, sx: real, sxx: real, b: real)
    ensures b * (n * sxx - sx * sx) == n * (b * sxx) - b * (sx * sx)
  {
  }

  lemma CancelFactor(n: real, x: real, y: real)
    requires n > 0.0 && n * x == n * y
    ensures x == y
  {
    assert (n * x) / n == x && (n * y) / n == y;
  }

  lemma FittedSolves(ys: seq<real>)
    requires |ys| >= 2
    ensures Mix(|ys| as real, SumX(|ys|), Fitted(ys)) == Sum(ys)
    ensures Mix(SumX(|ys|), SumXX(|ys|), Fitted(ys)) == Weighted(ys)
  {
    var n := |ys|;
    DenomClosed(n);
    hide Mix, SumX, SumXX, Sum, Weighted, Solved, Determinant;
    SolvesNormalEquations(n as real, SumX(n), SumXX(n), Sum(ys), Weighted(ys), Denom(n), Fitted(ys));
  }

  /** The residuals of the fitted line add up to zero, also when weighted by their positions. */
  lemma NormalEquations(ys: seq<real>)
    requires |ys| >= 2
    ensures Sum(Residuals(ys, Fitted(ys))) == 0.0
    ensures Weighted(Residuals(ys, Fitted(ys))) == 0.0
  {
    hide Mix, Fitted, SumX, SumXX;
    FittedSolves(ys);
    ResidualSum(ys, Fitted(ys));
    ResidualWeighted(ys, Fitted(ys));
  }

  /** The sum of the squares of a line's values at the first `n` positions. */
  function LineSquares(l: Line, n: nat): real {
    if n == 0 then 0.0 else LineSquares(l, n - 1) + Square(At(l, n - 1))
  }

  function Tilted(q: real, s: real, w: real, l: Line, squares: real): real {
    q - 2.0 * Mix(s, w, l) + squares
  }

  lemma TiltStep(q: real, s: real, w: real, l: Line, squares: real, r: real, i: nat, k: real, d: real)
    requires k == i as real && d == At(l, i)
    ensures Tilted(q, s, w, l, squares) + Square(r - d) ==
            Tilted(q + Square(r), s + r, w + Times(k, r), l, squares + Square(d))
  {
    MixStep(s, w, r, k * r, l);
    assert Mix(r, k * r, l) == d * r;
    hide Mix;
    assert (r - d) * (r - d) == r * r - 2.0 * (d * r) + d * d;
  }

  lemma WeightedSnoc(xs: seq<real>, x: real)
    ensures Weighted(xs + [x]) == Weighted(xs) + Times(|xs| as real, x)
  {
    assert (xs + [x])[..|xs|] == xs;
  }

  lemma ResidualsSnoc(xs: seq<real>, x: real, l: Line)
    ensures Residuals(xs + [x], l) == Residuals(xs, l) + [x - At(l, |xs|)]
  {
    hide At;
  }

  lemma LineSquaresNext(l: Line, n: nat)
    ensures LineSquares(l, n + 1) == LineSquares(l, n) + Square(At(l, n))
  {
  }

  lemma SquaredErrorSnoc(rs: seq<real>, r: real, l: Line)
    ensures SquaredError(rs + [r], l) == SquaredError(rs, l) + Square(r - At(l, |rs|))
  {
    hide Square, At, SumSq, Residuals;
    ResidualsSnoc(rs, r, l);
    SumSnoc(Residuals(rs, l), r - At(l, |rs|));
  }

  lemma SquaresSnoc(rs: seq<real>, r: real, l: Line)
    requires SquaredError(rs, l) == Tilted(SumSq(rs), Sum(rs), Weighted(rs), l, LineSquares(l, |rs|))
    ensures SquaredError(rs + [r], l) ==
            Tilted(SumSq(rs + [r]), Sum(rs + [r]), Weighted(rs + [r]), l, LineSquares(l, |rs| + 1))
  {
    hide *;
    TiltStep(SumSq(rs), Sum(rs), Weighted(rs), l, LineSquares(l, |rs|), r, |rs|, |rs| as real, At(l, |rs|));
    SumSnoc(rs, r);
    WeightedSnoc(rs, r);
    LineSquaresNext(l, |rs|);
    SquaredErrorSnoc(rs, r, l);
  }

  /** Taking a line away from any numbers changes their sum of squares by this much. */
  lemma {:induction false} SquaresOfResiduals(rs: seq<real>, l: Line)
    ensures SquaredError(rs, l) == Tilted(SumSq(rs), Sum(rs), Weighted(rs), l, LineSquares(l, |rs|))
  {
    if rs == [] {
      assert Residuals(rs, l) == [];
    } else {
      hide *;
      var n := |rs| - 1;
      SquaresOfResiduals(rs[..n], l);
      SquaresSnoc(rs[..n], rs[n], l);
      assert rs == rs[..n] + [rs[n]];
    }
  }

  function Difference(l: Line, m: Line): Line {
    Line(l.intercept - m.intercept, l.slope - m.slope)
  }

  lemma AtDifference(l: Line, m: Line, i: int)
    ensures At(Difference(l, m), i) == At(l, i) - At(m, i)
  {
  }

  /** The squared error of any line is that of the fitted line plus the squares of their distances. */
  lemma ErrorDecomposes(ys: seq<real>, l: Line)
    requires |ys| >= 2
    ensures SquaredError(ys, l) == SquaredError(ys, Fitted(ys)) + LineSquares(Difference(l, Fitted(ys)), |ys|)
  {
    var rs, d := Residuals(ys, Fitted(ys)), Difference(l, Fitted(ys));
    SquaresOfResiduals(rs, d);
    NormalEquations(ys);
    assert Residuals(rs, d) == Residuals(ys, l) by {
      forall i | 0 <= i < |ys|
        ensures Residuals(rs, d)[i] == Residuals(ys, l)[i]
      {
        AtDifference(l, Fitted(ys), i);
      }
    }
    assert Mix(0.0, 0.0, d) == 0.0;
    hide Fitted, Mix, LineSquares, SumSq, Sum, Weighted, Residuals;
  }

  lemma {:induction false} LineSquaresPositive(l: Line, n: nat)
    requires n >= 2 && l != Line(0.0, 0.0)
    ensures LineSquares(l, n) > 0.0
  {
    SquareNonNegative(At(l, n - 1));
    if n > 2 {
      LineSquaresPositive(l, n - 1);
    } else {
      assert LineSquares(l, 1) == Square(At(l, 0));
      SquareNonNegative(At(l, 0));
      hide Square;
      if l.intercept != 0.0 {
        SquarePositive(At(l, 0));
      } else {
        SquarePositive(At(l, 1));
      }
    }
  }

  /** The fitted line has the least squared error, and it is the only line that has it. */
  lemma BestFitExactly(ys: seq<real>, l: Line)
    requires |ys| >= 2
    ensures SquaredError(ys, Fitted(ys)) <= SquaredError(ys, l)
    ensures SquaredError(ys, l) == SquaredError(ys, Fitted(ys)) <==> l == Fitted(ys)
  {
    ErrorDecomposes(ys, l);
    hide SquaredError, Fitted;
    if l != Fitted(ys) {
      LineSquaresPositive(Difference(l, Fitted(ys)), |ys|);
    }
  }

  /** The deviation of the fitted line's residuals is the root of their mean square. */
  lemma SpreadIsRootMeanSquare(sqrt: real -> real, ys: seq<real>)
    requires |ys| >= 2
    ensures SquaredError(ys, Fitted(ys)) / |ys| as real >= 0.0
    ensures Spread(sqrt, Residuals(ys, Fitted(ys))) == sqrt(SquaredError(ys, Fitted(ys)) / |ys| as real)
  {
    var rs := Residuals(ys, Fitted(ys));
    NormalEquations(ys);
    VarianceIsSpread(rs);
    assert Mean(rs) == 0.0 && Variance(rs) == SumSq(rs) / |rs| as real;
  }

  // ---------- The forecasts ----------

  /** A forecast value, cut off at zero, with its band. */
  function Banded(date: int, v: real, band: real): Point {
    var value := NonNegative(v);
    Point(date, value, NonNegative(value - band), value + band)
  }

  method Clip(date: int, v: real, band: real) returns (p: Point)
    ensures p == Banded(date, v, band)
  {
    var value := v;
    if value < 0.0 {
      value := 0.0;
    }
    var low := value - band;
    if low < 0.0 {
      low := 0.0;
    }
    p := Point(date, value, low, value + band);
  }

  function LinePoints(l: Line, n: nat, last: int, horizon: nat, band: real): (out: seq<Point>)
  {
    seq(horizon, i requires 0 <= i < horizon => Banded(last + i + 1, At(l, n + i), band))
  }

  function LinearForecast(sqrt: real -> real, history: seq<Point>, horizon: nat): seq<Point> {
    if |history| < 2 then []
    else
      var ys := Values(history);
      var band := 1.5 * Spread(sqrt, Residuals(ys, Fitted(ys)));
      LinePoints(Fitted(ys), |history|, history[|history| - 1].date, horizon, band)
  }

  lemma SumsNext(ys: seq<real>, i: nat)
    requires i < |ys|
    ensures Sum(ys[..i + 1]) == Sum(ys[..i]) + ys[i]
    ensures Weighted(ys[..i + 1]) == Weighted(ys[..i]) + i as real * ys[i]
  {
    SumNext(ys, i);
    assert ys[..i + 1][..i] == ys[..i];
  }

  /** The loop over the history that adds up the four sums. */
  method AddUp(history: seq<Point>) returns (sumX: real, sumY: real, sumXY: real, sumXX: real)
    ensures sumX == SumX(|history|) && sumXX == SumXX(|history|)
    ensures sumY == Sum(Values(history)) && sumXY == Weighted(Values(history))
  {
    ghost var ys := Values(history);
    sumX, sumY, sumXY, sumXX := 0.0, 0.0, 0.0, 0.0;
    for i := 0 to |history|
      invariant sumX == SumX(i) && sumXX == SumXX(i)
      invariant sumY == Sum(ys[..i]) && sumXY == Weighted(ys[..i])
    {
      SumsNext(ys, i);
      hide Sum, Weighted;
      var x := i as real;
      sumX := sumX + x;
      sumY := sumY + history[i].value;
      sumXY := sumXY + x * history[i].value;
      sumXX := sumXX + x * x;
    }
    assert ys[..|history|] == ys;
  }

  /** Slope and intercept from the sums. */
  method Solve(n: real, sumX: real, sumY: real, sumXY: real, sumXX: real) returns (l: Line)
    requires n != 0.0
    ensures var denom := Determinant(n, sumX, sumXX);
            l == if denom != 0.0 then Solved(n, sumX, sumY, sumXY, denom) else Line(sumY / n, 0.0)
  {
    var denom := n * sumXX - sumX * sumX;
    var slope, intercept := 0.0, sumY / n;
    if denom != 0.0 {
      slope := (n * sumXY - sumX * sumY) / denom;
      assert slope == Slope(n, sumX, sumY, sumXY, denom);
      hide Slope;
      intercept := (sumY - slope * sumX) / n;
      assert intercept == Intercept(n, sumX, sumY, slope);
    }
    l := Line(intercept, slope);
  }

  method ResidualsOf(history: seq<Point>, l: Line) returns (residuals: seq<real>)
    ensures residuals == Residuals(Values(history), l)
  {
    residuals := [];
    for i := 0 to |history|
      invariant |residuals| == i && forall k | 0 <= k < i :: residuals[k] == history[k].value - At(l, k)
    {
      var pred := l.intercept + l.slope * i as real;
      assert pred == At(l, i);
      hide At;
      residuals := residuals + [history[i].value - pred];
    }
  }

  method ForecastLinear(sqrt: real -> real, history: seq<Point>, horizon: nat) returns (out: seq<Point>)
    ensures out == LinearForecast(sqrt, history, horizon)
  {
    if |history| < 2 {
      return [];
    }
    DenomClosed(|history|);
    hide Solved, Determinant, Sum, Weighted, Spread, Banded, Residuals;
    var sumX, sumY, sumXY, sumXX := AddUp(history);
    var l := Solve(|history| as real, sumX, sumY, sumXY, sumXX);
    var residuals := ResidualsOf(history, l);
    var spread := StdDev(sqrt, residuals);
    var band := 1.5 * spread;
    out := PointsOnLine(l, |history|, history[|history| - 1].date, horizon, band);
  }

  method PointsOnLine(l: Line, n: nat, last: int, horizon: nat, band: real) returns (out: seq<Point>)
    ensures out == LinePoints(l, n, last, horizon, band)
  {
    hide Banded;
    out := [];
    for i := 0 to horizon
      invariant out == LinePoints(l, n, last, i, band)
    {
      var x := (n + i) as real;
      var v := l.intercept + l.slope * x;
      assert v == At(l, n + i);
      hide At;
      var p := Clip(last + i + 1, v, band);
      out := out + [p];
      assert out == LinePoints(l, n, last, i + 1, band);
    }
  }

  /** Every point of the forecast lies on the line of least squared error, cut off at zero, inside a
      band of 1.5 times the root mean square of that line's residuals; the low end is cut off, too. */
  lemma LinearForecastBand(sqrt: real -> real, history: seq<Point>, horizon: nat, i: nat)
    requires IsRoot(sqrt) && |history| >= 2 && i < horizon
    ensures |LinearForecast(sqrt, history, horizon)| == horizon
    ensures var (ys, p) := (Values(history), LinearForecast(sqrt, history, horizon)[i]);
            && p.date == history[|history| - 1].date + i + 1
            && p.value == NonNegative(At(Fitted(ys), |history| + i))
            && p.high - p.value == 1.5 * sqrt(SquaredError(ys, Fitted(ys)) / |ys| as real)
            && p.low == NonNegative(p.value - (p.high - p.value)) && 0.0 <= p.low <= p.value <= p.high
  {
    var ys := Values(history);
    SpreadIsRootMeanSquare(sqrt, ys);
    var spread := sqrt(SquaredError(ys, Fitted(ys)) / |ys| as real);
    assert spread >= 0.0;
    hide Fitted, SquaredError, Residuals, Spread, At;
    assert LinearForecast(sqrt, history, horizon)[i] ==
           Banded(history[|history| - 1].date + i + 1, At(Fitted(ys), |history| + i), 1.5 * spread);
  }

  datatype Smoothing = Smoothing(level: real, trend: real)

  function Smooth(s: Smoothing, y: real, alpha: real, beta: real): Smoothing {
    var level := alpha * y + (1.0 - alpha) * (s.level + s.trend);
    Smoothing(level, beta * (level - s.level) + (1.0 - beta) * s.trend)
  }

  /** Level and trend after the first `k` values. */
  function Smoothed(ys: seq<real>, k: nat, alpha: real, beta: real): Smoothing
    requires |ys| >= 2 && 1 <= k <= |ys|
  {
    if k == 1 then Smoothing(ys[0], ys[1] - ys[0])
    else Smooth(Smoothed(ys, k - 1, alpha, beta), ys[k - 1], alpha, beta)
  }

  /** How far each value but the first is from its prediction one step before. */
  function Surprises(ys: seq<real>, alpha: real, beta: real): (rs: seq<real>)
    requires |ys| >= 2
  {
    seq(|ys| - 1, i requires 0 <= i < |ys| - 1 =>
      var s := Smoothed(ys, i + 1, alpha, beta);
      ys[i + 1] - (s.level + s.trend))
  }

  /** With all weight on the level and none on the trend, the level is the last value and the trend
      stays the first difference. */
  lemma {:induction false} LevelOnly(ys: seq<real>, k: nat)
    requires |ys| >= 2 && 1 <= k <= |ys|
    ensures Smoothed(ys, k, 1.0, 0.0) == Smoothing(ys[k - 1], ys[1] - ys[0])
  {
    if k > 1 {
      LevelOnly(ys, k - 1);
    }
  }

  function TrendAt(s: Smoothing, i: int): real {
    s.level + i as real * s.trend
  }

  function TrendPoints(s: Smoothing, last: int, horizon: nat, band: real): seq<Point> {
    seq(horizon, i requires 0 <= i < horizon => Banded(last + i + 1, TrendAt(s, i + 1), band))
  }

  function EtsForecast(sqrt: real -> real, history: seq<Point>, horizon: nat, alpha: real, beta: real): seq<Point> {
    if |history| < 2 then []
    else
      var ys := Values(history);
      var band := 1.5 * Spread(sqrt, Surprises(ys, alpha, beta));
      TrendPoints(Smoothed(ys, |ys|, alpha, beta), history[|history| - 1].date, horizon, band)
  }

  /** The loop over the history that keeps level and trend and collects the residuals. */
  method SmoothAll(history: seq<Point>, alpha: real, beta: real) returns (s: Smoothing, residuals: seq<real>)
    requires |history| >= 2
    ensures s == Smoothed(Values(history), |history|, alpha, beta)
    ensures residuals == Surprises(Values(history), alpha, beta)
  {
    ghost var ys := Values(history);
    var level := history[0].value;
    var trend := history[1].value - history[0].value;
    residuals := [];
    for i := 1 to |history|
      invariant Smoothing(level, trend) == Smoothed(ys, i, alpha, beta)
      invariant residuals == Surprises(ys, alpha, beta)[..i - 1]
    {
      var pred := level + trend;
      residuals := residuals + [history[i].value - pred];
      var newLevel := alpha * history[i].value + (1.0 - alpha) * (level + trend);
      var newTrend := beta * (newLevel - level) + (1.0 - beta) * trend;
      assert Smoothing(newLevel, newTrend) == Smooth(Smoothing(level, trend), history[i].value, alpha, beta);
      hide Smooth;
      level, trend := newLevel, newTrend;
    }
    s := Smoothing(level, trend);
  }

  method ForecastEts(sqrt: real -> real, history: seq<Point>, horizon: nat, alpha: real, beta: real)
    returns (out: seq<Point>)
    ensures out == EtsForecast(sqrt, history, horizon, alpha, beta)
  {
    if |history| < 2 {
      return [];
    }
    hide Smoothed, Surprises, Spread, Banded;
    var s, residuals := SmoothAll(history, alpha, beta);
    var spread := StdDev(sqrt, residuals);
    var band := 1.5 * spread;
    var last := history[|history| - 1].date;
    out := [];
    for i := 0 to horizon
      invariant out == TrendPoints(s, last, i, band)
    {
      var v := s.level + (i + 1) as real * s.trend;
      assert v == TrendAt(s, i + 1);
      hide TrendAt;
      var p := Clip(last + i + 1, v, band);
      out := out + [p];
      assert out == TrendPoints(s, last, i + 1, band);
    }
  }

  // ---------- The backtest ----------

  /** Days for a list of values, the last of them at `end`. */
  function FakePoints(values: seq<real>, end: int): (points: seq<Point>)
    ensures Values(points) == values
  {
    seq(|values|, i requires 0 <= i < |values| => Point(end - (|values| - 1 - i), values[i], 0.0, 0.0))
  }

  method MakeFakePoints(values: seq<real>, end: int) returns (points: seq<Point>)
    ensures points == FakePoints(values, end)
  {
    points := [];
    for i := 0 to |values|
      invariant points == FakePoints(values, end)[..i]
    {
      points := points + [Point(end - (|values| - 1 - i), values[i], 0.0, 0.0)];
    }
  }

  type Predictor = (seq<real>, nat) -> seq<real>

  function LinearPredictor(sqrt: real -> real, now: int): Predictor {
    (train: seq<real>, h: nat) => Values(LinearForecast(sqrt, FakePoints(train, now), h))
  }

  function EtsPredictor(sqrt: real -> real, now: int, alpha: real, beta: real): Predictor {
    (train: seq<real>, h: nat) => Values(EtsForecast(sqrt, FakePoints(train, now), h, alpha, beta))
  }

  /** How many values the backtest trains on. */
  function Split(n: nat): nat {
    4 * n / 5
  }

  /** The relative errors added up, over the days that are not zero. */
  function RelativeError(test: seq<real>, predicted: seq<real>): real
    requires |predicted| == |test|
  {
    if test == [] then 0.0
    else
      var n := |test| - 1;
      RelativeError(test[..n], predicted[..n]) +
      if test[n] == 0.0 then 0.0 else Abs((test[n] - predicted[n]) / test[n])
  }

  function NonZero(test: seq<real>): nat {
    if test == [] then 0 else NonZero(test[..|test| - 1]) + if test[|test| - 1] == 0.0 then 0 else 1
  }

  function Mape(values: seq<real>, predictor: Predictor): real {
    var split := Split(|values|);
    if |values| < 14 || split < 7 || split >= |values| then 0.0
    else
      var test := values[split..];
      var predicted := predictor(values[..split], |test|);
      if |predicted| != |test| || NonZero(test) == 0 then 0.0
      else RelativeError(test, predicted) / NonZero(test) as real * 100.0
  }

  method BacktestMape(values: seq<real>, predictor: Predictor) returns (mape: real)
    ensures mape == Mape(values, predictor)
  {
    if |values| < 14 {
      return 0.0;
    }
    var split := 4 * |values| / 5;
    if split < 7 || split >= |values| {
      return 0.0;
    }
    var train, test := values[..split], values[split..];
    var predicted := predictor(train, |test|);
    if |predicted| != |test| {
      return 0.0;
    }
    var sum, count := 0.0, 0;
    for i := 0 to |test|
      invariant sum == RelativeError(test[..i], predicted[..i]) && count == NonZero(test[..i])
    {
      assert test[..i + 1][..i] == test[..i] && predicted[..i + 1][..i] == predicted[..i];
      if test[i] == 0.0 {
        continue;
      }
      sum := sum + Abs((test[i] - predicted[i]) / test[i]);
      count := count + 1;
    }
    assert test[..|test|] == test && predicted[..|test|] == predicted;
    if count == 0 {
      return 0.0;
    }
    mape := sum / count as real * 100.0;
  }

  datatype Confidence = Low | Medium | High

  function ConfidenceOf(mape: real): Confidence {
    if mape <= 15.0 then High else if mape <= 30.0 then Medium else Low
  }

  // ---------- Exactly linear series ----------

  predicate OnLine(ys: seq<real>, l: Line) {
    forall i | 0 <= i < |ys| :: ys[i] == At(l, i)
  }

  predicate Zeros(rs: seq<real>) {
    forall i | 0 <= i < |rs| :: rs[i] == 0.0
  }

  lemma {:induction false} ZeroSums(rs: seq<real>)
    requires Zeros(rs)
    ensures Sum(rs) == 0.0 && SumSq(rs) == 0.0
  {
    if rs != [] {
      ZeroSums(rs[..|rs| - 1]);
    }
  }

  lemma SpreadOfZeros(sqrt: real -> real, rs: seq<real>)
    requires IsRoot(sqrt) && Zeros(rs)
    ensures Spread(sqrt, rs) == 0.0
  {
    ZeroSums(rs);
    RootOfZero(sqrt);
  }

  lemma FittedOnLine(ys: seq<real>, l: Line)
    requires |ys| >= 2 && OnLine(ys, l)
    ensures Fitted(ys) == l && Zeros(Residuals(ys, l))
  {
    ZeroSums(Residuals(ys, l));
    BestFitExactly(ys, l);
    SumSqNonNegative(Residuals(ys, Fitted(ys)));
  }

  /** On an exactly linear history the linear forecast is the line itself, with no band. */
  lemma LinearOnLine(sqrt: real -> real, history: seq<Point>, horizon: nat, l: Line)
    requires IsRoot(sqrt) && |history| >= 2 && OnLine(Values(history), l)
    ensures LinearForecast(sqrt, history, horizon) ==
            LinePoints(l, |history|, history[|history| - 1].date, horizon, 0.0)
  {
    FittedOnLine(Values(history), l);
    SpreadOfZeros(sqrt, Residuals(Values(history), l));
  }

  lemma SmoothOnLine(l: Line, k: int, alpha: real, beta: real)
    ensures Smooth(Smoothing(At(l, k - 1), l.slope), At(l, k), alpha, beta) == Smoothing(At(l, k), l.slope)
    ensures At(l, k - 1) + l.slope == At(l, k)
  {
    AtNext(l, k);
    Blend(alpha, At(l, k));
    Blend(beta, l.slope);
    hide At;
  }

  lemma AtNext(l: Line, k: int)
    ensures At(l, k - 1) + l.slope == At(l, k)
  {
  }

  lemma Blend(weight: real, v: real)
    ensures weight * v + (1.0 - weight) * v == v
  {
  }

  lemma {:induction false} SmoothedOnLine(ys: seq<real>, k: nat, alpha: real, beta: real, l: Line)
    requires |ys| >= 2 && 1 <= k <= |ys| && OnLine(ys, l)
    ensures Smoothed(ys, k, alpha, beta) == Smoothing(At(l, k - 1), l.slope)
  {
    SmoothOnLine(l, k - 1, alpha, beta);
    AtNext(l, 1);
    hide At, Smooth;
    if k > 1 {
      SmoothedOnLine(ys, k - 1, alpha, beta, l);
    }
  }

  lemma TrendOnLine(l: Line, n: int, i: int)
    ensures TrendAt(Smoothing(At(l, n - 1), l.slope), i + 1) == At(l, n + i)
  {
  }

  lemma TrendPointsOnLine(l: Line, n: nat, last: int, h: nat)
    ensures TrendPoints(Smoothing(At(l, n - 1), l.slope), last, h, 0.0) == LinePoints(l, n, last, h, 0.0)
  {
    var points := TrendPoints(Smoothing(At(l, n - 1), l.slope), last, h, 0.0);
    forall i | 0 <= i < h
      ensures points[i] == LinePoints(l, n, last, h, 0.0)[i]
    {
      TrendOnLine(l, n, i);
      hide At, TrendAt, Banded;
    }
  }

  /** So is the exponential smoothing forecast, whatever its two weights. */
  lemma EtsOnLine(sqrt: real -> real, history: seq<Point>, horizon: nat, alpha: real, beta: real, l: Line)
    requires IsRoot(sqrt) && |history| >= 2 && OnLine(Values(history), l)
    ensures EtsForecast(sqrt, history, horizon, alpha, beta) ==
            LinePoints(l, |history|, history[|history| - 1].date, horizon, 0.0)
  {
    var ys, n := Values(history), |history|;
    hide At, TrendAt, Banded, Spread, Smoothed;
    forall i | 0 <= i < n - 1
      ensures Surprises(ys, alpha, beta)[i] == 0.0
    {
      SmoothedOnLine(ys, i + 1, alpha, beta, l);
      AtNext(l, i + 1);
    }
    SpreadOfZeros(sqrt, Surprises(ys, alpha, beta));
    SmoothedOnLine(ys, n, alpha, beta, l);
    TrendPointsOnLine(l, n, history[n - 1].date, horizon);
  }

  function Continued(l: Line, n: nat, h: nat): seq<real> {
    seq(h, i requires 0 <= i < h => NonNegative(At(l, n + i)))
  }

  lemma ValuesOfLinePoints(l: Line, n: nat, last: int, h: nat)
    ensures Values(LinePoints(l, n, last, h, 0.0)) == Continued(l, n, h)
  {
    var points := LinePoints(l, n, last, h, 0.0);
    forall i | 0 <= i < h
      ensures points[i].value == Continued(l, n, h)[i]
    {
      assert points[i] == Banded(last + i + 1, At(l, n + i), 0.0);
      hide At;
    }
  }

  lemma PredictsLine(sqrt: real -> real, now: int, train: seq<real>, h: nat, alpha: real, beta: real, l: Line)
    requires IsRoot(sqrt) && |train| >= 2 && OnLine(train, l)
    ensures LinearPredictor(sqrt, now)(train, h) == Continued(l, |train|, h)
    ensures EtsPredictor(sqrt, now, alpha, beta)(train, h) == Continued(l, |train|, h)
  {
    var points := FakePoints(train, now);
    hide OnLine, LinearForecast, EtsForecast, LinePoints, Continued;
    LinearOnLine(sqrt, points, h, l);
    EtsOnLine(sqrt, points, h, alpha, beta, l);
    ValuesOfLinePoints(l, |train|, points[|train| - 1].date, h);
  }

  function Negatives(test: seq<real>): nat {
    if test == [] then 0 else Negatives(test[..|test| - 1]) + if test[|test| - 1] < 0.0 then 1 else 0
  }

  lemma OwnError(t: real)
    requires t != 0.0
    ensures Abs((t - NonNegative(t)) / t) == if t < 0.0 then 1.0 else 0.0
  {
    if t < 0.0 {
      assert (t - NonNegative(t)) / t == 1.0;
    }
  }

  /** Predictions that are right but for the cut at zero err by the whole value on negative days. */
  lemma {:induction false} ErrorIsNegatives(test: seq<real>, predicted: seq<real>)
    requires |predicted| == |test| && forall i | 0 <= i < |test| :: predicted[i] == NonNegative(test[i])
    ensures RelativeError(test, predicted) == Negatives(test) as real
    ensures Negatives(test) <= NonZero(test)
    ensures Negatives(test) == 0 <==> forall i | 0 <= i < |test| :: test[i] >= 0.0
  {
    if test != [] {
      var n := |test| - 1;
      ErrorIsNegatives(test[..n], predicted[..n]);
      if test[n] != 0.0 {
        OwnError(test[n]);
      }
      assert forall i | 0 <= i < n :: test[..n][i] == test[i];
      hide Abs, NonNegative;
    }
  }

  lemma MapeOnLine(ys: seq<real>, predictor: Predictor, l: Line)
    requires OnLine(ys, l)
    requires |ys| >= 14 ==>
               var split := Split(|ys|);
               predictor(ys[..split], |ys| - split) == Continued(l, split, |ys| - split)
    ensures Mape(ys, predictor) >= 0.0
    ensures Mape(ys, predictor) == 0.0 <==>
              |ys| < 14 || forall i | Split(|ys|) <= i < |ys| :: ys[i] >= 0.0
  {
    if |ys| >= 14 {
      var split := Split(|ys|);
      var test := ys[split..];
      var predicted := predictor(ys[..split], |test|);
      ErrorIsNegatives(test, predicted) by { hide At; }
      assert forall i | split <= i < |ys| :: ys[i] == test[i - split];
      hide At, RelativeError, OnLine;
      Percentage(Negatives(test), NonZero(test));
    }
  }

  lemma Percentage(part: nat, whole: nat)
    requires part <= whole
    ensures whole > 0 ==> part as real / whole as real * 100.0 >= 0.0
    ensures whole > 0 ==> (part as real / whole as real * 100.0 == 0.0 <==> part == 0)
  {
  }

  /** The backtest of an exactly linear series of any length is zero, with either method, if and only
      if the series is too short for one or no value held back for it is negative. */
  lemma BacktestOnLineExactly(sqrt: real -> real, ys: seq<real>, now: int, alpha: real, beta: real, l: Line)
    requires IsRoot(sqrt) && OnLine(ys, l)
    ensures Mape(ys, LinearPredictor(sqrt, now)) == 0.0 <==>
              |ys| < 14 || forall i | Split(|ys|) <= i < |ys| :: ys[i] >= 0.0
    ensures Mape(ys, EtsPredictor(sqrt, now, alpha, beta)) == 0.0 <==>
              |ys| < 14 || forall i | Split(|ys|) <= i < |ys| :: ys[i] >= 0.0
  {
    if |ys| >= 14 {
      var split := Split(|ys|);
      assert OnLine(ys[..split], l) by { hide At; }
      PredictsLine(sqrt, now, ys[..split], |ys| - split, alpha, beta, l);
    }
    hide Mape, LinearPredictor, EtsPredictor, At;
    MapeOnLine(ys, LinearPredictor(sqrt, now), l);
    MapeOnLine(ys, EtsPredictor(sqrt, now, alpha, beta), l);
  }

  /** A linear series without negative values is always forecast with high confidence. */
  lemma NonNegativeLineIsHigh(sqrt: real -> real, ys: seq<real>, now: int, alpha: real, beta: real, l: Line)
    requires IsRoot(sqrt) && OnLine(ys, l) && forall i | 0 <= i < |ys| :: ys[i] >= 0.0
    ensures Mape(ys, LinearPredictor(sqrt, now)) == 0.0 == Mape(ys, EtsPredictor(sqrt, now, alpha, beta))
    ensures ConfidenceOf(Mape(ys, LinearPredictor(sqrt, now))) == High
    ensures ConfidenceOf(Mape(ys, EtsPredictor(sqrt, now, alpha, beta))) == High
  {
    hide OnLine, Mape, LinearPredictor, EtsPredictor;
    BacktestOnLineExactly(sqrt, ys, now, alpha, beta, l);
  }
}
