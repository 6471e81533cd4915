/** What the forecasts, the backtest and the confidence of
    services/analytics-service/internal/controller/service.go come to on any series. */
module ForecastLaws {
  import opened Statistics
  import opened Forecast

  // ---------- Smoothing ----------

  /** The first level is the first value and the first trend the first difference. After that every value
      moves the level beyond its prediction by `alpha` times the error of that prediction, and the trend by
      `alpha` times `beta` times the error. */
  lemma ErrorCorrects(ys: seq<real>, k: nat, alpha: real, beta: real)
    requires 1 <= k < |ys|
    ensures Smoothed(ys, 1, alpha, beta) == Smoothing(ys[0], ys[1] - ys[0])
    ensures var (s, next) := (Smoothed(ys, k, alpha, beta), Smoothed(ys, k + 1, alpha, beta));
            var e := ys[k] - (s.level + s.trend);
            && Surprises(ys, alpha, beta)[k - 1] == e
            && next.level == s.level + s.trend + alpha * e
            && next.trend == s.trend + alpha * beta * e
  {
    var s := Smoothed(ys, k, alpha, beta);
    CorrectionForm(s, ys[k], alpha, beta);
    hide Smooth;
  }

  lemma CorrectionForm(s: Smoothing, y: real, alpha: real, beta: real)
    ensures var e := y - (s.level + s.trend);
            Smooth(s, y, alpha, beta) == Smoothing(s.level + s.trend + alpha * e, s.trend + alpha * beta * e)
  {
    var e := y - (s.level + s.trend);
    var level := Smooth(s, y, alpha, beta).level;
    assert level == s.level + s.trend + alpha * e;
    TrendForm(s.trend, alpha * e, beta);
    assert level - s.level == s.trend + alpha * e;
  }

  lemma TrendForm(trend: real, step: real, beta: real)
    ensures beta * (trend + step) + (1.0 - beta) * trend == trend + beta * step
  {
  }

  // ---------- Bands ----------

  /** The deviation is the root of the mean square distance to the mean. */
  lemma SpreadExactly(sqrt: real -> real, xs: seq<real>)
    requires IsRoot(sqrt)
    ensures |xs| < 2 ==> Spread(sqrt, xs) == 0.0
    ensures |xs| >= 2 ==>
              && Spread(sqrt, xs) >= 0.0
              && Times(|xs| as real, Square(Spread(sqrt, xs))) == SumSq(Less(xs, Mean(xs)))
  {
    if |xs| >= 2 {
      VarianceIsSpread(xs);
      hide Variance, Times, Square, Less, Mean;
    }
  }

  lemma SpreadNotNegative(sqrt: real -> real, xs: seq<real>)
    requires IsRoot(sqrt)
    ensures Spread(sqrt, xs) >= 0.0
  {
    SpreadExactly(sqrt, xs);
    hide Spread;
  }

  /** A point cut off at zero, with its band. */
  predicate InBand(p: Point, date: int, v: real, band: real) {
    && p.date == date
    && p.value == (if v < 0.0 then 0.0 else v)
    && p.high - p.value == band
    && p.low == (if p.value < band then 0.0 else p.value - band)
    && 0.0 <= p.low <= p.value <= p.high
  }

  lemma BandedInBand(date: int, v: real, band: real)
    requires band >= 0.0
    ensures InBand(Banded(date, v, band), date, v, band)
  {
  }

  lemma TrendPointAt(s: Smoothing, last: int, horizon: nat, band: real, i: nat)
    requires i < horizon
    ensures |TrendPoints(s, last, horizon, band)| == horizon
    ensures TrendPoints(s, last, horizon, band)[i] == Banded(last + i + 1, TrendAt(s, i + 1), band)
  {
    hide Banded, TrendAt;
  }

  lemma TrendAtIs(s: Smoothing, i: int)
    ensures TrendAt(s, i) == s.level + i as real * s.trend
  {
  }

  lemma EtsPointAt(
    sqrt: real -> real, history: seq<Point>, horizon: nat, alpha: real, beta: real, i: nat)
    requires |history| >= 2 && i < horizon
    ensures |EtsForecast(sqrt, history, horizon, alpha, beta)| == horizon
    ensures var ys := Values(history);
            EtsForecast(sqrt, history, horizon, alpha, beta)[i] ==
            Banded(history[|history| - 1].date + i + 1, TrendAt(Smoothed(ys, |ys|, alpha, beta), i + 1),
                   BandOf(Spread(sqrt, Surprises(ys, alpha, beta))))
  {
    var ys := Values(history);
    hide Smoothed, Spread, Surprises, Banded, TrendPoints, TrendAt;
    TrendPointAt(Smoothed(ys, |ys|, alpha, beta), history[|history| - 1].date, horizon,
                 BandOf(Spread(sqrt, Surprises(ys, alpha, beta))), i);
  }

  function BandOf(spread: real): real {
    1.5 * spread
  }

  /** Every point of the smoothed forecast lies on the line of the last level and trend, cut off at zero,
      inside a band of 1.5 times the deviation of the one-step errors, cut off at zero below. */
  lemma EtsForecastBand(
    sqrt: real -> real, history: seq<Point>, horizon: nat, alpha: real, beta: real, i: nat)
    requires IsRoot(sqrt) && |history| >= 2 && i < horizon
    ensures |EtsForecast(sqrt, history, horizon, alpha, beta)| == horizon
    ensures var ys := Values(history);
            var s := Smoothed(ys, |ys|, alpha, beta);
            var v := s.level + (i + 1) as real * s.trend;
            InBand(EtsForecast(sqrt, history, horizon, alpha, beta)[i], history[|history| - 1].date + i + 1,
                   v, BandOf(Spread(sqrt, Surprises(ys, alpha, beta))))
  {
    var ys := Values(history);
    SpreadNotNegative(sqrt, Surprises(ys, alpha, beta));
    var s, spread := Smoothed(ys, |ys|, alpha, beta), Spread(sqrt, Surprises(ys, alpha, beta));
    assert BandOf(spread) >= 0.0;
    hide Smoothed, Spread, Surprises, InBand, Banded, EtsForecast, TrendAt, IsRoot, BandOf;
    EtsPointAt(sqrt, history, horizon, alpha, beta, i);
    TrendAtIs(s, i + 1);
    BandedInBand(history[|history| - 1].date + i + 1, TrendAt(s, i + 1), BandOf(spread));
  }

  /** Fewer than two days of history give no forecast. */
  lemma NoForecast(sqrt: real -> real, history: seq<Point>, horizon: nat, alpha: real, beta: real)
    requires |history| < 2
    ensures LinearForecast(sqrt, history, horizon) == [] == EtsForecast(sqrt, history, horizon, alpha, beta)
  {
  }

  /** The days given to the values of a backtest are consecutive, and the last of them is the end. */
  lemma FakeDates(values: seq<real>, end: int, i: nat)
    requires i < |values|
    ensures FakePoints(values, end)[|values| - 1].date == end
    ensures i > 0 ==> FakePoints(values, end)[i].date == FakePoints(values, end)[i - 1].date + 1
  {
  }

  // ---------- The backtest ----------

  /** Four fifths of the values, rounded down, are trained on. */
  lemma SplitExactly(n: nat)
    ensures 5 * Split(n) <= 4 * n < 5 * Split(n) + 5
  {
  }

  /** The sizes of the relative errors on the days that are not zero. */
  function Sizes(test: seq<real>, errors: seq<real>): seq<real>
    requires |errors| == |test|
  {
    if test == [] then []
    else
      var n := |test| - 1;
      Sizes(test[..n], errors[..n]) + if test[n] == 0.0 then [] else [Abs(errors[n])]
  }

  lemma OneError(t: real, p: real, e: real)
    requires t != 0.0 && p == (1.0 - e) * t
    ensures Abs((t - p) / t) == Abs(e)
  {
    var q := (t - p) / t;
    assert q * t == t - p;
    assert t - p == e * t;
    CancelRight(q, e, t);
  }

  lemma CancelRight(x: real, y: real, t: real)
    requires t != 0.0 && x * t == y * t
    ensures x == y
  {
    assert x == (x * t) / t && y == (y * t) / t;
  }

  lemma SizesSnoc(test: seq<real>, errors: seq<real>, t: real, e: real)
    requires |errors| == |test|
    ensures Sizes(test + [t], errors + [e]) == Sizes(test, errors) + if t == 0.0 then [] else [Abs(e)]
  {
    assert (test + [t])[..|test|] == test && (errors + [e])[..|test|] == errors;
  }

  lemma ErrorSnoc(test: seq<real>, predicted: seq<real>, t: real, p: real)
    requires |predicted| == |test|
    ensures RelativeError(test + [t], predicted + [p]) ==
            RelativeError(test, predicted) + if t == 0.0 then 0.0 else Abs((t - p) / t)
    ensures NonZero(test + [t]) == NonZero(test) + if t == 0.0 then 0 else 1
  {
    assert (test + [t])[..|test|] == test && (predicted + [p])[..|test|] == predicted;
  }

  predicate OffBy(test: seq<real>, predicted: seq<real>, errors: seq<real>) {
    && |predicted| == |test| == |errors|
    && forall i | 0 <= i < |test| && test[i] != 0.0 :: predicted[i] == (1.0 - errors[i]) * test[i]
  }

  predicate AddUp(test: seq<real>, predicted: seq<real>, errors: seq<real>)
    requires |predicted| == |test| == |errors|
  {
    RelativeError(test, predicted) == Sum(Sizes(test, errors)) && NonZero(test) == |Sizes(test, errors)|
  }

  lemma OneMoreDay(test: seq<real>, predicted: seq<real>, errors: seq<real>, t: real, p: real, e: real)
    requires |predicted| == |test| == |errors|
    requires AddUp(test, predicted, errors) && (t != 0.0 ==> p == (1.0 - e) * t)
    ensures AddUp(test + [t], predicted + [p], errors + [e])
  {
    if t != 0.0 { OneError(t, p, e); }
    hide Abs, Sizes, RelativeError, NonZero, Sum;
    ErrorSnoc(test, predicted, t, p);
    SizesSnoc(test, errors, t, e);
    var before := Sizes(test, errors);
    SumSnoc(before, Abs(e));
    assert before + [] == before;
  }

  lemma {:induction false} ErrorsAddUp(test: seq<real>, predicted: seq<real>, errors: seq<real>)
    requires OffBy(test, predicted, errors)
    ensures AddUp(test, predicted, errors)
  {
    if test != [] {
      var n := |test| - 1;
      hide AddUp;
      ErrorsAddUp(test[..n], predicted[..n], errors[..n]);
      OneMoreDay(test[..n], predicted[..n], errors[..n], test[n], predicted[n], errors[n]);
      hide OffBy;
      assert test == test[..n] + [test[n]];
      assert predicted == predicted[..n] + [predicted[n]];
      assert errors == errors[..n] + [errors[n]];
    }
  }

  function Trained(values: seq<real>): seq<real> {
    values[..Split(|values|)]
  }

  /** The days held back, one after the days trained on. */
  function HeldBack(values: seq<real>): seq<real> {
    values[Split(|values|)..]
  }

  lemma MapeIs(values: seq<real>, predictor: Predictor)
    requires |values| >= 14
    ensures var (test, predicted) := (HeldBack(values), predictor(Trained(values), |HeldBack(values)|));
            Mape(values, predictor) ==
            if |predicted| != |test| || NonZero(test) == 0 then 0.0
            else RelativeError(test, predicted) / NonZero(test) as real * 100.0
  {
  }

  /** The score of a backtest is a hundred times the mean of the relative errors' sizes over the days held
      back that are not zero, and zero if there are none, too few values, or not one prediction for each day. */
  lemma MapeIsMean(values: seq<real>, predictor: Predictor, errors: seq<real>)
    requires |values| >= 14
    requires OffBy(HeldBack(values), predictor(Trained(values), |HeldBack(values)|), errors)
    ensures var sizes := Sizes(HeldBack(values), errors);
            Mape(values, predictor) == if sizes == [] then 0.0 else 100.0 * Mean(sizes)
  {
    hide Trained, HeldBack, Mape, RelativeError, Sizes, NonZero, Sum;
    MapeIs(values, predictor);
    ErrorsAddUp(HeldBack(values), predictor(Trained(values), |HeldBack(values)|), errors);
    hide OffBy;
  }

  lemma NoScore(values: seq<real>, predictor: Predictor)
    requires |values| < 14 || |predictor(Trained(values), |HeldBack(values)|)| != |HeldBack(values)|
    ensures Mape(values, predictor) == 0.0
  {
    if |values| >= 14 {
      MapeIs(values, predictor);
    }
  }

  lemma {:induction false} EqualSizes(test: seq<real>, errors: seq<real>, c: real)
    requires |errors| == |test| && forall i | 0 <= i < |test| :: errors[i] == c
    ensures Sum(Sizes(test, errors)) == Times(|Sizes(test, errors)| as real, Abs(c))
  {
    if test == [] {
      assert Times(0.0, Abs(c)) == 0.0;
    } else {
      var n := |test| - 1;
      EqualSizes(test[..n], errors[..n], c);
      hide Abs, Times, Sizes, Sum;
      assert test == test[..n] + [test[n]] && errors == errors[..n] + [c];
      SizesSnoc(test[..n], errors[..n], test[n], c);
      var before := Sizes(test[..n], errors[..n]);
      SumSnoc(before, Abs(c));
      OneTimesMore(|before|, Abs(c));
      assert before + [] == before;
    }
  }

  lemma {:induction false} SomeSize(test: seq<real>, errors: seq<real>, i: nat)
    requires |errors| == |test| && i < |test| && test[i] != 0.0
    ensures Sizes(test, errors) != []
  {
    if i < |test| - 1 { SomeSize(test[..|test| - 1], errors[..|test| - 1], i); }
  }

  lemma OneTimesMore(k: nat, v: real)
    ensures Times((k + 1) as real, v) == Times(k as real, v) + v
  {
  }

  lemma MeanOfEqual(n: real, v: real, sum: real)
    requires n > 0.0 && sum == Times(n, v)
    ensures sum / n == v
  {
    assert (n * v) / n == v;
  }

  /** So if every prediction is off by the same fraction, that is the score, in percent, however many days
      are zero; and the confidence is high up to fifteen percent, medium up to thirty, and low beyond. */
  lemma EvenlyOff(values: seq<real>, predictor: Predictor, c: real, i: nat)
    requires |values| >= 14 && i < |HeldBack(values)| && HeldBack(values)[i] != 0.0
    requires |predictor(Trained(values), |HeldBack(values)|)| == |HeldBack(values)|
    requires forall k | 0 <= k < |HeldBack(values)| ::
               predictor(Trained(values), |HeldBack(values)|)[k] == (1.0 - c) * HeldBack(values)[k]
    ensures Mape(values, predictor) == 100.0 * (if c < 0.0 then -c else c)
    ensures ConfidenceOf(Mape(values, predictor)) ==
            if -0.15 <= c <= 0.15 then High else if -0.3 <= c <= 0.3 then Medium else Low
  {
    var test := HeldBack(values);
    var errors := seq(|test|, _ => c);
    hide Trained, HeldBack, Mape, Sizes, Sum, Times;
    MapeIsMean(values, predictor, errors);
    EqualSizes(test, errors, c);
    SomeSize(test, errors, i);
    var sizes := Sizes(test, errors);
    MeanOfEqual(|sizes| as real, Abs(c), Sum(sizes));
  }
}
