/** Anomaly detection on daily sales, over exact reals:
    services/analytics-service/internal/controller/service.go. Dates are day numbers. */
module Anomalies {
  import opened Statistics

  datatype SalesDaily = SalesDaily(date: int, revenue: real, orders: int)

  datatype Metric = TotalRevenue | TotalOrders | AvgOrderValue

  datatype Severity = Warning | Critical

  /** Category and type follow from the metric; the message is left out. */
  datatype Anomaly = Anomaly(metric: Metric, value: real, threshold: real, date: int, severity: Severity)

  // ---------- What is reported ----------

  function Revenues(records: seq<SalesDaily>): (xs: seq<real>)
    ensures |xs| == |records| && forall i | 0 <= i < |xs| :: xs[i] == records[i].revenue
  {
    seq(|records|, i requires 0 <= i < |records| => records[i].revenue)
  }

  function Grade(deviation: real, stddev: real): Severity {
    if deviation > 3.0 * stddev then Critical else Warning
  }

  function RevenueAnomalies(records: seq<SalesDaily>, mean: real, stddev: real): seq<Anomaly> {
    if records == [] then []
    else
      var r := records[|records| - 1];
      var deviation := Abs(r.revenue - mean);
      RevenueAnomalies(records[..|records| - 1], mean, stddev) +
      if deviation > 2.0 * stddev
      then [Anomaly(TotalRevenue, r.revenue, mean + 2.0 * stddev, r.date, Grade(deviation, stddev))]
      else []
  }

  function ZeroOrderAnomalies(records: seq<SalesDaily>): seq<Anomaly> {
    if records == [] then []
    else
      var r := records[|records| - 1];
      ZeroOrderAnomalies(records[..|records| - 1]) +
      if r.orders == 0 then [Anomaly(TotalOrders, 0.0, 1.0, r.date, Warning)] else []
  }

  function SalesAnomalies(sqrt: real -> real, records: seq<SalesDaily>): seq<Anomaly> {
    if records == [] then []
    else
      var stddev := sqrt(Variance(Revenues(records)));
      (if stddev > 0.0 then RevenueAnomalies(records, Mean(Revenues(records)), stddev) else []) +
      ZeroOrderAnomalies(records)
  }

  function Aov(r: SalesDaily): real
    requires r.orders != 0
  {
    r.revenue / r.orders as real
  }

  /** The average order values of the days with orders. */
  function Aovs(records: seq<SalesDaily>): seq<real> {
    if records == [] then []
    else
      var r := records[|records| - 1];
      Aovs(records[..|records| - 1]) + if r.orders > 0 then [Aov(r)] else []
  }

  function DropAnomalies(records: seq<SalesDaily>, mean: real, stddev: real): seq<Anomaly> {
    if records == [] then []
    else
      var r := records[|records| - 1];
      DropAnomalies(records[..|records| - 1], mean, stddev) +
      if r.orders != 0 && mean - Aov(r) > 2.0 * stddev
      then [Anomaly(AvgOrderValue, Aov(r), mean - 2.0 * stddev, r.date, Grade(mean - Aov(r), stddev))]
      else []
  }

  function BusinessAnomalies(sqrt: real -> real, records: seq<SalesDaily>): seq<Anomaly> {
    var aovs := Aovs(records);
    if |aovs| < 5 then []
    else
      var stddev := sqrt(Variance(aovs));
      if stddev > 0.0 then DropAnomalies(records, Mean(aovs), stddev) else []
  }

  // ---------- The detectors ----------

  /** The first loop of the sales detector, and the mean and deviation from its sums. */
  method RevenueMoments(sqrt: real -> real, records: seq<SalesDaily>) returns (mean: real, stddev: real)
    requires records != []
    ensures mean == Mean(Revenues(records)) && stddev == sqrt(Variance(Revenues(records)))
  {
    ghost var xs := Revenues(records);
    var sum, sumSq := 0.0, 0.0;
    for i := 0 to |records|
      invariant sum == Sum(xs[..i]) && sumSq == SumSq(xs[..i])
    {
      SumNext(xs, i);
      sum := sum + records[i].revenue;
      sumSq := sumSq + records[i].revenue * records[i].revenue;
    }
    assert xs[..|xs|] == xs;
    hide Sum, SumSq, Revenues;
    var n := |records| as real;
    mean := sum / n;
    var variance := sumSq / n - mean * mean;
    VarianceOf(xs, n, mean, variance);
    stddev := sqrt(variance);
  }

  method ReportRevenues(records: seq<SalesDaily>, mean: real, stddev: real) returns (anomalies: seq<Anomaly>)
    ensures anomalies == RevenueAnomalies(records, mean, stddev)
  {
    anomalies := [];
    for i := 0 to |records|
      invariant anomalies == RevenueAnomalies(records[..i], mean, stddev)
    {
      assert records[..i + 1][..i] == records[..i];
      var r := records[i];
      var deviation := Abs(r.revenue - mean);
      var threshold := 2.0 * stddev;
      if deviation > threshold {
        var severity := Warning;
        if deviation > 3.0 * stddev {
          severity := Critical;
        }
        anomalies := anomalies + [Anomaly(TotalRevenue, r.revenue, mean + threshold, r.date, severity)];
      }
    }
    assert records[..|records|] == records;
  }

  /** Both parts of the report; an average over no days is not a number, and reports nothing. */
  method DetectSalesAnomalies(sqrt: real -> real, records: seq<SalesDaily>) returns (anomalies: seq<Anomaly>)
    ensures anomalies == SalesAnomalies(sqrt, records)
  {
    anomalies := [];
    if records == [] {
      return;
    }
    var mean, stddev := RevenueMoments(sqrt, records);
    if stddev > 0.0 {
      anomalies := ReportRevenues(records, mean, stddev);
    }
    hide RevenueAnomalies, Revenues, Mean, Variance;
    ghost var before := anomalies;
    for i := 0 to |records|
      invariant anomalies == before + ZeroOrderAnomalies(records[..i])
    {
      assert records[..i + 1][..i] == records[..i];
      if records[i].orders == 0 {
        anomalies := anomalies + [Anomaly(TotalOrders, 0.0, 1.0, records[i].date, Warning)];
      }
    }
    assert records[..|records|] == records;
  }

  /** The first loop of the business detector. */
  method SumAovs(records: seq<SalesDaily>) returns (sumAov: real, sumAovSq: real, aovCount: nat)
    ensures sumAov == Sum(Aovs(records)) && sumAovSq == SumSq(Aovs(records)) && aovCount == |Aovs(records)|
  {
    sumAov, sumAovSq, aovCount := 0.0, 0.0, 0;
    for i := 0 to |records|
      invariant sumAov == Sum(Aovs(records[..i])) && sumAovSq == SumSq(Aovs(records[..i]))
      invariant aovCount == |Aovs(records[..i])|
    {
      hide Sum, SumSq;
      assert records[..i + 1][..i] == records[..i];
      if records[i].orders > 0 {
        var aov := records[i].revenue / records[i].orders as real;
        assert aov == Aov(records[i]);
        hide Aov;
        assert Aovs(records[..i + 1]) == Aovs(records[..i]) + [aov];
        SumSnoc(Aovs(records[..i]), aov);
        sumAov := sumAov + aov;
        sumAovSq := sumAovSq + aov * aov;
        aovCount := aovCount + 1;
      } else {
        assert Aovs(records[..i + 1]) == Aovs(records[..i]);
      }
    }
    assert records[..|records|] == records;
  }

  method ReportDrops(records: seq<SalesDaily>, mean: real, stddev: real) returns (anomalies: seq<Anomaly>)
    ensures anomalies == DropAnomalies(records, mean, stddev)
  {
    anomalies := [];
    for i := 0 to |records|
      invariant anomalies == DropAnomalies(records[..i], mean, stddev)
    {
      assert records[..i + 1][..i] == records[..i];
      var r := records[i];
      if r.orders == 0 {
        continue;
      }
      var aov := r.revenue / r.orders as real;
      assert aov == Aov(r);
      hide Aov;
      var deviation := mean - aov;
      if deviation > 2.0 * stddev {
        var severity := Warning;
        if deviation > 3.0 * stddev {
          severity := Critical;
        }
        anomalies := anomalies + [Anomaly(AvgOrderValue, aov, mean - 2.0 * stddev, r.date, severity)];
      }
    }
    assert records[..|records|] == records;
  }

  method DetectBusinessAnomalies(sqrt: real -> real, records: seq<SalesDaily>) returns (anomalies: seq<Anomaly>)
    ensures anomalies == BusinessAnomalies(sqrt, records)
  {
    anomalies := [];
    var sumAov, sumAovSq, aovCount := SumAovs(records);
    if aovCount >= 5 {
      var n := aovCount as real;
      var mean := sumAov / n;
      var variance := sumAovSq / n - mean * mean;
      VarianceOf(Aovs(records), n, mean, variance);
      var stddev := sqrt(variance);
      if stddev > 0.0 {
        anomalies := ReportDrops(records, mean, stddev);
      }
    }
  }

  // ---------- How far numbers can lie from their mean ----------

  /** How many numbers are further than `t` from zero. */
  function Beyond(ds: seq<real>, t: real): nat {
    if ds == [] then 0 else Beyond(ds[..|ds| - 1], t) + if Abs(ds[|ds| - 1]) > t then 1 else 0
  }

  lemma SquareBeyond(d: real, t: real)
    requires t >= 0.0 && Abs(d) > t
    ensures Square(d) > Square(t)
  {
    var a := Abs(d);
    TimesPositive(a - t, a + t);
    assert Times(a - t, a + t) == Square(a) - Square(t);
    assert Square(d) == Square(a);
  }

  lemma OneMoreTimes(k: nat, v: real)
    ensures Times((k + 1) as real, v) == Times(k as real, v) + v
    ensures Times(0.0, v) == 0.0
  {
  }

  lemma {:induction false} BeyondSquares(ds: seq<real>, t: real)
    requires t >= 0.0
    ensures SumSq(ds) >= Times(Beyond(ds, t) as real, Square(t))
    ensures Beyond(ds, t) > 0 ==> SumSq(ds) > Times(Beyond(ds, t) as real, Square(t))
  {
    if ds != [] {
      var before, d := ds[..|ds| - 1], ds[|ds| - 1];
      hide Times, Square;
      BeyondSquares(before, t);
      SquareNonNegative(d);
      OneMoreTimes(Beyond(before, t), Square(t));
      if Abs(d) > t {
        SquareBeyond(d, t);
      }
    } else {
      OneMoreTimes(0, Square(t));
    }
  }

  lemma ShiftAlgebra(q: real, s: real, n: real, m: real, u: real)
    requires n * m == s
    ensures Lessened(q, s, n, m + u) == Lessened(q, s, n, m) + Times(n, Square(u))
  {
    assert (m + u) * (m + u) == m * m + 2.0 * (m * u) + u * u;
    assert n * (m * u) == s * u;
  }

  lemma MeanTimes(xs: seq<real>)
    requires xs != []
    ensures |xs| as real * Mean(xs) == Sum(xs)
  {
  }

  lemma TimesPlus(n: real, a: real, b: real)
    ensures Times(n, a + b) == Times(n, a) + Times(n, b)
  {
  }

  /** The squares of the distances to a point `u` above the mean. */
  lemma SquaresAround(xs: seq<real>, u: real)
    requires xs != []
    ensures SumSq(Less(xs, Mean(xs) + u)) == Times(|xs| as real, Variance(xs) + Square(u))
  {
    hide Sum, SumSq, Less, Lessened, Square, Variance, Times, Mean;
    var m := Mean(xs);
    MeanTimes(xs);
    SumSqLess(xs, m + u);
    SumSqLess(xs, m);
    ShiftAlgebra(SumSq(xs), Sum(xs), |xs| as real, m, u);
    VarianceIsSpread(xs);
    TimesPlus(|xs| as real, Variance(xs), Square(u));
  }

  /** The general bound: numbers further than `t` from the point `u` above the mean are few. */
  lemma BeyondBound(xs: seq<real>, u: real, t: real)
    requires xs != [] && t >= 0.0
    ensures var m := Beyond(Less(xs, Mean(xs) + u), t);
            m > 0 ==> Times(m as real, Square(t)) < Times(|xs| as real, Variance(xs) + Square(u))
  {
    SquaresAround(xs, u);
    BeyondSquares(Less(xs, Mean(xs) + u), t);
    hide Beyond, Less, SumSq, Variance, Square, Mean, Times;
  }

  lemma FewerThan(m: nat, n: nat, k: nat, w: real)
    requires w > 0.0 && Times(m as real, Times(k as real, w)) < Times(n as real, w)
    ensures k * m < n
  {
    if k * m >= n {
      Monotone(n as real, (k * m) as real, w);
    }
  }

  lemma Monotone(a: real, b: real, w: real)
    requires a <= b && w > 0.0
    ensures a * w <= b * w
  {
  }

  /** Fewer than one number in `k` is further than `t` from the point `u` above the mean, when the
      square of `t` is `k` times the mean square distance `w` to that point. */
  lemma FewBeyond(xs: seq<real>, u: real, t: real, k: nat, w: real)
    requires xs != [] && t >= 0.0 && w == Variance(xs) + Square(u) && w > 0.0
    requires Square(t) == Times(k as real, w)
    ensures k * Beyond(Less(xs, Mean(xs) + u), t) < |xs|
  {
    BeyondBound(xs, u, t);
    var m := Beyond(Less(xs, Mean(xs) + u), t);
    hide Beyond, Less, Variance, Square, Mean, Times;
    if m > 0 {
      FewerThan(m, |xs|, k, w);
    }
  }

  lemma TwoSidedScales(s: real)
    ensures Square(2.0 * s) == Times(4.0, Square(s) + Square(0.0))
    ensures Square(3.0 * s) == Times(9.0, Square(s) + Square(0.0))
    ensures Square(0.0) == 0.0
  {
  }

  /** Chebyshev's bound at two and three standard deviations. */
  lemma TwoSided(xs: seq<real>, s: real)
    requires xs != [] && s > 0.0 && Square(s) == Variance(xs)
    ensures 4 * Beyond(Less(xs, Mean(xs)), 2.0 * s) < |xs|
    ensures 9 * Beyond(Less(xs, Mean(xs)), 3.0 * s) < |xs|
  {
    SquarePositive(s);
    TwoSidedScales(s);
    assert Mean(xs) + 0.0 == Mean(xs);
    hide Beyond, Less, Variance, Square, Mean, Times;
    FewBeyond(xs, 0.0, 2.0 * s, 4, Square(s) + Square(0.0));
    FewBeyond(xs, 0.0, 3.0 * s, 9, Square(s) + Square(0.0));
  }

  /** How many numbers lie below the level. */
  function Below(xs: seq<real>, level: real): nat {
    if xs == [] then 0 else Below(xs[..|xs| - 1], level) + if xs[|xs| - 1] < level then 1 else 0
  }

  lemma {:induction false} BelowIsBeyond(xs: seq<real>, c: real, t: real)
    requires t >= 0.0
    ensures Below(xs, c - t) <= Beyond(Less(xs, c), t)
  {
    if xs != [] {
      BelowIsBeyond(xs[..|xs| - 1], c, t);
      assert Less(xs, c)[..|xs| - 1] == Less(xs[..|xs| - 1], c);
    }
  }

  lemma FewBelow(xs: seq<real>, u: real, t: real, k: nat, w: real, level: real)
    requires xs != [] && t >= 0.0 && w == Variance(xs) + Square(u) && w > 0.0
    requires Square(t) == Times(k as real, w) && level == Mean(xs) + u - t
    ensures k * Below(xs, level) < |xs|
  {
    hide Beyond, Below, Less, Variance, Square, Mean, Times;
    FewBeyond(xs, u, t, k, w);
    BelowIsBeyond(xs, Mean(xs) + u, t);
    assert k * Below(xs, level) <= k * Beyond(Less(xs, Mean(xs) + u), t);
  }

  lemma OneSidedScales(s: real)
    ensures Square(2.5 * s) == Times(5.0, Square(s) + Square(0.5 * s))
    ensures Square(10.0 * (s / 3.0)) == Times(10.0, Square(s) + Square(s / 3.0))
  {
    var r := s / 3.0;
    assert s == 3.0 * r;
  }

  /** Cantelli's bound at two and three standard deviations below the mean. */
  lemma OneSided(xs: seq<real>, s: real)
    requires xs != [] && s > 0.0 && Square(s) == Variance(xs)
    ensures 5 * Below(xs, Mean(xs) - 2.0 * s) < |xs|
    ensures 10 * Below(xs, Mean(xs) - 3.0 * s) < |xs|
  {
    SquarePositive(s);
    SquareNonNegative(0.5 * s);
    SquareNonNegative(s / 3.0);
    OneSidedScales(s);
    hide Below, Variance, Square, Mean, Times;
    FewBelow(xs, 0.5 * s, 2.5 * s, 5, Square(s) + Square(0.5 * s), Mean(xs) - 2.0 * s);
    FewBelow(xs, s / 3.0, 10.0 * (s / 3.0), 10, Square(s) + Square(s / 3.0), Mean(xs) - 3.0 * s);
  }

  // ---------- How many anomalies are reported ----------

  function Reported(anomalies: seq<Anomaly>, metric: Metric): nat {
    if anomalies == [] then 0
    else
      Reported(anomalies[..|anomalies| - 1], metric) + if anomalies[|anomalies| - 1].metric == metric then 1 else 0
  }

  function ReportedCritical(anomalies: seq<Anomaly>, metric: Metric): nat {
    if anomalies == [] then 0
    else
      var a := anomalies[|anomalies| - 1];
      ReportedCritical(anomalies[..|anomalies| - 1], metric) +
      if a.metric == metric && a.severity == Critical then 1 else 0
  }

  lemma ReportedSnoc(anomalies: seq<Anomaly>, a: Anomaly, metric: Metric)
    ensures Reported(anomalies + [a], metric) == Reported(anomalies, metric) + if a.metric == metric then 1 else 0
    ensures ReportedCritical(anomalies + [a], metric) ==
            ReportedCritical(anomalies, metric) + if a.metric == metric && a.severity == Critical then 1 else 0
  {
    assert (anomalies + [a])[..|anomalies|] == anomalies;
  }

  lemma {:induction false} ReportedConcat(a: seq<Anomaly>, b: seq<Anomaly>, metric: Metric)
    ensures Reported(a + b, metric) == Reported(a, metric) + Reported(b, metric)
    ensures ReportedCritical(a + b, metric) == ReportedCritical(a, metric) + ReportedCritical(b, metric)
  {
    if b == [] {
      assert a + b == a;
    } else {
      ReportedConcat(a, b[..|b| - 1], metric);
      ReportedSnoc(a + b[..|b| - 1], b[|b| - 1], metric);
      assert a + b == (a + b[..|b| - 1]) + [b[|b| - 1]];
    }
  }

  lemma BeyondSnoc(ds: seq<real>, d: real, t: real)
    ensures Beyond(ds + [d], t) == Beyond(ds, t) + if Abs(d) > t then 1 else 0
  {
    assert (ds + [d])[..|ds|] == ds;
  }

  function Distances(records: seq<SalesDaily>, mean: real): seq<real> {
    Less(Revenues(records), mean)
  }

  lemma DistancesSnoc(records: seq<SalesDaily>, r: SalesDaily, mean: real)
    ensures Distances(records + [r], mean) == Distances(records, mean) + [r.revenue - mean]
  {
  }

  lemma RevenueSnoc(records: seq<SalesDaily>, r: SalesDaily, mean: real, stddev: real) returns (a: Anomaly)
    ensures RevenueAnomalies(records + [r], mean, stddev) == RevenueAnomalies(records, mean, stddev) +
            if Abs(r.revenue - mean) > 2.0 * stddev then [a] else []
    ensures a.metric == TotalRevenue && (a.severity == Critical <==> Abs(r.revenue - mean) > 3.0 * stddev)
  {
    assert (records + [r])[..|records|] == records;
    a := Anomaly(TotalRevenue, r.revenue, mean + 2.0 * stddev, r.date, Grade(Abs(r.revenue - mean), stddev));
  }

  lemma RevenueReportsSnoc(records: seq<SalesDaily>, r: SalesDaily, mean: real, stddev: real)
    requires stddev >= 0.0 && RevenueReported(records, mean, stddev)
    ensures RevenueReported(records + [r], mean, stddev)
  {
    hide Reported, ReportedCritical, Beyond, Distances, RevenueAnomalies;
    var before := RevenueAnomalies(records, mean, stddev);
    var a := RevenueSnoc(records, r, mean, stddev);
    ReportedSnoc(before, a, TotalRevenue);
    ReportedSnoc(before, a, TotalOrders);
    DistancesSnoc(records, r, mean);
    BeyondSnoc(Distances(records, mean), r.revenue - mean, 2.0 * stddev);
    BeyondSnoc(Distances(records, mean), r.revenue - mean, 3.0 * stddev);
    hide Abs;
    assert before + [] == before;
  }

  /** The report counts the days beyond two and three standard deviations. */
  predicate RevenueReported(records: seq<SalesDaily>, mean: real, stddev: real) {
    var (anomalies, ds) := (RevenueAnomalies(records, mean, stddev), Distances(records, mean));
    && Reported(anomalies, TotalRevenue) == Beyond(ds, 2.0 * stddev)
    && ReportedCritical(anomalies, TotalRevenue) == Beyond(ds, 3.0 * stddev)
    && Reported(anomalies, TotalOrders) == 0
  }

  lemma {:induction false} RevenueReports(records: seq<SalesDaily>, mean: real, stddev: real)
    requires stddev >= 0.0
    ensures RevenueReported(records, mean, stddev)
  {
    if records != [] {
      hide RevenueReported;
      RevenueReports(records[..|records| - 1], mean, stddev);
      RevenueReportsSnoc(records[..|records| - 1], records[|records| - 1], mean, stddev);
      assert records == records[..|records| - 1] + [records[|records| - 1]];
    }
  }

  function ZeroDays(records: seq<SalesDaily>): nat {
    if records == [] then 0
    else ZeroDays(records[..|records| - 1]) + if records[|records| - 1].orders == 0 then 1 else 0
  }

  lemma {:induction false} ZeroOrderReports(records: seq<SalesDaily>)
    ensures Reported(ZeroOrderAnomalies(records), TotalOrders) == ZeroDays(records)
    ensures Reported(ZeroOrderAnomalies(records), TotalRevenue) == 0
    ensures ReportedCritical(ZeroOrderAnomalies(records), TotalRevenue) == 0
  {
    if records != [] {
      var n := |records| - 1;
      ZeroOrderReports(records[..n]);
      var before := ZeroOrderAnomalies(records[..n]);
      var last := Anomaly(TotalOrders, 0.0, 1.0, records[n].date, Warning);
      ReportedSnoc(before, last, TotalRevenue);
      ReportedSnoc(before, last, TotalOrders);
      hide Reported, ReportedCritical;
      assert before + [] == before;
    }
  }

  lemma RevenueReportsBounded(records: seq<SalesDaily>, s: real)
    requires records != [] && s > 0.0 && Square(s) == Variance(Revenues(records))
    ensures var first := RevenueAnomalies(records, Mean(Revenues(records)), s);
            && 4 * Reported(first, TotalRevenue) < |records| && 9 * ReportedCritical(first, TotalRevenue) < |records|
            && Reported(first, TotalOrders) == 0
  {
    var xs := Revenues(records);
    TwoSided(xs, s);
    RevenueReports(records, Mean(xs), s);
    hide Variance, Mean, Less, Beyond, RevenueAnomalies, Square, Reported, ReportedCritical;
  }

  lemma SalesShape(sqrt: real -> real, records: seq<SalesDaily>) returns (s: real, first: seq<Anomaly>)
    requires IsRoot(sqrt) && records != []
    ensures SalesAnomalies(sqrt, records) == first + ZeroOrderAnomalies(records)
    ensures s > 0.0 ==> Square(s) == Variance(Revenues(records)) &&
                        first == RevenueAnomalies(records, Mean(Revenues(records)), s)
    ensures s <= 0.0 ==> first == []
  {
    VarianceIsSpread(Revenues(records));
    s := sqrt(Variance(Revenues(records)));
    hide Variance, Mean, Revenues, RevenueAnomalies, ZeroOrderAnomalies, Square;
    first := if s > 0.0 then RevenueAnomalies(records, Mean(Revenues(records)), s) else [];
  }

  lemma NothingReported(metric: Metric)
    ensures Reported([], metric) == ReportedCritical([], metric) == 0
  {
  }

  /** Of any days, fewer than a quarter are reported for their revenue and fewer than a ninth as
      critical; every day without orders is reported once as such. */
  lemma SalesReportsBounded(sqrt: real -> real, records: seq<SalesDaily>)
    requires IsRoot(sqrt) && records != []
    ensures 4 * Reported(SalesAnomalies(sqrt, records), TotalRevenue) < |records|
    ensures 9 * ReportedCritical(SalesAnomalies(sqrt, records), TotalRevenue) < |records|
    ensures Reported(SalesAnomalies(sqrt, records), TotalOrders) == ZeroDays(records)
  {
    hide *;
    var s, first := SalesShape(sqrt, records);
    ReportedConcat(first, ZeroOrderAnomalies(records), TotalRevenue);
    ReportedConcat(first, ZeroOrderAnomalies(records), TotalOrders);
    ZeroOrderReports(records);
    if s > 0.0 {
      RevenueReportsBounded(records, s);
    } else {
      NothingReported(TotalRevenue);
      NothingReported(TotalOrders);
    }
  }

  /** Days with a negative number of orders, which the sums leave out but the report does not. */
  function NegativeDays(records: seq<SalesDaily>): nat {
    if records == [] then 0
    else NegativeDays(records[..|records| - 1]) + if records[|records| - 1].orders < 0 then 1 else 0
  }

  lemma {:induction false} DropReports(records: seq<SalesDaily>, mean: real, stddev: real, level: real)
    requires level == mean - 2.0 * stddev
    ensures Below(Aovs(records), level) <= |DropAnomalies(records, mean, stddev)|
    ensures |DropAnomalies(records, mean, stddev)| <= Below(Aovs(records), level) + NegativeDays(records)
  {
    if records != [] {
      var n := |records| - 1;
      DropReports(records[..n], mean, stddev, level);
      hide Aov, Below;
      if records[n].orders != 0 {
        BelowSnoc(Aovs(records[..n]), Aov(records[n]), level);
      }
      assert Aovs(records[..n]) + [] == Aovs(records[..n]);
    }
  }

  /** What the last record adds to the report and to the averages. */
  lemma DropSnoc(records: seq<SalesDaily>, r: SalesDaily, mean: real, stddev: real) returns (a: Anomaly, aov: real)
    ensures DropAnomalies(records + [r], mean, stddev) == DropAnomalies(records, mean, stddev) +
            if r.orders != 0 && aov < mean - 2.0 * stddev then [a] else []
    ensures Aovs(records + [r]) == Aovs(records) + if r.orders > 0 then [aov] else []
    ensures NegativeDays(records + [r]) == NegativeDays(records) + if r.orders < 0 then 1 else 0
    ensures a.metric == AvgOrderValue && (a.severity == Critical <==> aov < mean - 3.0 * stddev)
  {
    assert (records + [r])[..|records|] == records;
    aov := if r.orders != 0 then Aov(r) else 0.0;
    hide Aov;
    a := Anomaly(AvgOrderValue, aov, mean - 2.0 * stddev, r.date, Grade(mean - aov, stddev));
  }

  predicate CriticalReported(records: seq<SalesDaily>, mean: real, stddev: real) {
    var below := Below(Aovs(records), mean - 3.0 * stddev);
    below <= ReportedCritical(DropAnomalies(records, mean, stddev), AvgOrderValue) <= below + NegativeDays(records)
  }

  lemma CriticalSnoc(records: seq<SalesDaily>, r: SalesDaily, mean: real, stddev: real)
    requires stddev >= 0.0 && CriticalReported(records, mean, stddev)
    ensures CriticalReported(records + [r], mean, stddev)
  {
    hide DropAnomalies, Aovs, NegativeDays, Below, Reported, ReportedCritical;
    var before := DropAnomalies(records, mean, stddev);
    var a, aov := DropSnoc(records, r, mean, stddev);
    ReportedSnoc(before, a, AvgOrderValue);
    BelowSnoc(Aovs(records), aov, mean - 3.0 * stddev);
    assert before + [] == before && Aovs(records) + [] == Aovs(records);
  }

  lemma {:induction false} CriticalDropReports(records: seq<SalesDaily>, mean: real, stddev: real)
    requires stddev >= 0.0
    ensures CriticalReported(records, mean, stddev)
  {
    if records != [] {
      hide CriticalReported;
      CriticalDropReports(records[..|records| - 1], mean, stddev);
      CriticalSnoc(records[..|records| - 1], records[|records| - 1], mean, stddev);
      assert records == records[..|records| - 1] + [records[|records| - 1]];
    }
  }

  lemma BelowSnoc(xs: seq<real>, x: real, level: real)
    ensures Below(xs + [x], level) == Below(xs, level) + if x < level then 1 else 0
  {
    assert (xs + [x])[..|xs|] == xs;
  }

  lemma DropReportsAt(records: seq<SalesDaily>, s: real)
    requires Aovs(records) != [] && s > 0.0 && Square(s) == Variance(Aovs(records))
    ensures var (anomalies, n) := (DropAnomalies(records, Mean(Aovs(records)), s), |Aovs(records)|);
            && 5 * (|anomalies| - NegativeDays(records)) < n
            && 10 * (ReportedCritical(anomalies, AvgOrderValue) - NegativeDays(records)) < n
  {
    var mean := Mean(Aovs(records));
    OneSided(Aovs(records), s);
    DropReports(records, mean, s, mean - 2.0 * s);
    CriticalDropReports(records, mean, s);
    hide Variance, Mean, Aovs, Below, Square, DropAnomalies, NegativeDays, ReportedCritical;
  }

  /** Of the days with orders, fewer than a fifth are reported for a drop and fewer than a tenth as
      critical, not counting days with a negative number of orders. */
  lemma DropReportsBounded(sqrt: real -> real, records: seq<SalesDaily>)
    requires IsRoot(sqrt)
    ensures var (anomalies, n) := (BusinessAnomalies(sqrt, records), |Aovs(records)|);
            anomalies != [] ==>
              && 5 * (|anomalies| - NegativeDays(records)) < n
              && 10 * (ReportedCritical(anomalies, AvgOrderValue) - NegativeDays(records)) < n
  {
    var aovs := Aovs(records);
    if |aovs| >= 5 {
      VarianceIsSpread(aovs);
      var s := sqrt(Variance(aovs));
      assert s >= 0.0 && Square(s) == Variance(aovs);
      hide Variance, Mean, Aovs, Square, DropAnomalies, NegativeDays, ReportedCritical;
      if s > 0.0 {
        DropReportsAt(records, s);
      }
    }
  }

  /** So five days with orders, the least that the detector looks at, never report a drop, nor do
      fewer, if no day has a negative number of orders. */
  lemma FiveDaysNeverReport(sqrt: real -> real, records: seq<SalesDaily>)
    requires IsRoot(sqrt) && |Aovs(records)| <= 5 && NegativeDays(records) == 0
    ensures BusinessAnomalies(sqrt, records) == []
  {
    DropReportsBounded(sqrt, records);
  }

  // ---------- The bounds are tight ----------

  /** One day with one order for each number. */
  function Days(xs: seq<real>): (records: seq<SalesDaily>)
    ensures |records| == |xs| && forall i | 0 <= i < |xs| :: records[i] == SalesDaily(i, xs[i], 1)
  {
    seq(|xs|, i requires 0 <= i < |xs| => SalesDaily(i, xs[i], 1))
  }

  lemma {:induction false} AovsOfDays(xs: seq<real>)
    ensures Aovs(Days(xs)) == xs && NegativeDays(Days(xs)) == 0 && Revenues(Days(xs)) == xs
  {
    if xs != [] {
      var n := |xs| - 1;
      AovsOfDays(xs[..n]);
      assert Days(xs)[..n] == Days(xs[..n]);
      assert Aov(Days(xs)[n]) == xs[n];
      hide Aov;
      assert xs == xs[..n] + [xs[n]];
    }
  }

  function Then(xs: seq<real>, v: real, k: nat): seq<real> {
    if k == 0 then xs else Then(xs, v, k - 1) + [v]
  }

  /** What `k` more numbers `v` add to everything that is counted. */
  predicate Adds(xs: seq<real>, ys: seq<real>, v: real, k: nat, level: real, c: real, t: real) {
    && |ys| == |xs| + k
    && Sum(ys) == Sum(xs) + Times(k as real, v)
    && SumSq(ys) == SumSq(xs) + Times(k as real, Square(v))
    && Below(ys, level) == Below(xs, level) + (if v < level then k else 0)
    && Beyond(Less(ys, c), t) == Beyond(Less(xs, c), t) + (if Abs(v - c) > t then k else 0)
  }

  lemma LessSnoc(xs: seq<real>, v: real, c: real)
    ensures Less(xs + [v], c) == Less(xs, c) + [v - c]
  {
  }

  lemma AddsSnoc(xs: seq<real>, ys: seq<real>, v: real, k: nat, level: real, c: real, t: real)
    requires Adds(xs, ys, v, k, level, c, t)
    ensures Adds(xs, ys + [v], v, k + 1, level, c, t)
  {
    hide Sum, SumSq, Below, Beyond, Less, Abs, Square, Times;
    SumSnoc(ys, v);
    BelowSnoc(ys, v, level);
    LessSnoc(ys, v, c);
    BeyondSnoc(Less(ys, c), v - c, t);
    OneMoreTimes(k, v);
    OneMoreTimes(k, Square(v));
  }

  lemma {:induction false} ThenAdds(xs: seq<real>, v: real, k: nat, level: real, c: real, t: real)
    ensures Adds(xs, Then(xs, v, k), v, k, level, c, t)
  {
    if k > 0 {
      hide Adds;
      ThenAdds(xs, v, k - 1, level, c, t);
      AddsSnoc(xs, Then(xs, v, k - 1), v, k - 1, level, c, t);
    } else {
      OneMoreTimes(0, v);
      OneMoreTimes(0, Square(v));
    }
  }

  lemma SquareMonotone(a: real, b: real)
    requires 0.0 <= a <= b
    ensures Square(a) <= Square(b)
  {
    if a < b {
      TimesPositive(b - a, b + a);
      assert Times(b - a, b + a) == Square(b) - Square(a);
    }
  }

  lemma RootBelow(s: real, b: real, t: real)
    requires s >= 0.0 && b >= 0.0 && t > 0.0 && t * t * Square(s) < Square(b)
    ensures t * s < b
  {
    ScaledSquare(t, s);
    hide Square;
    if t * s >= b {
      SquareMonotone(b, t * s);
    }
  }

  lemma ScaledSquare(t: real, s: real)
    ensures Square(t * s) == t * t * Square(s)
  {
  }

  lemma RootPositive(s: real, v: real)
    requires s >= 0.0 && Square(s) == v && v > 0.0
    ensures s > 0.0
  {
    assert Square(0.0) == 0.0;
    hide Square;
  }

  lemma RootIs(sqrt: real -> real, v: real)
    requires IsRoot(sqrt) && v > 0.0
    ensures sqrt(v) > 0.0 && Square(sqrt(v)) == v
  {
    assert sqrt(v) >= 0.0 && Square(sqrt(v)) == v;
    RootPositive(sqrt(v), v);
  }

  /** `m` numbers at zero and `ones` at one. */
  function Lopsided(m: nat, ones: nat): seq<real> {
    Then(Then([], 0.0, m), 1.0, ones)
  }

  lemma TimesOne(n: real)
    ensures Times(n, 0.0) == 0.0 && Times(n, 1.0) == n && Times(n, 2.0) == 2.0 * n && Times(n, 4.0) == 4.0 * n
    ensures Square(0.0) == 0.0 && Square(1.0) == 1.0 && Square(2.0) == 4.0
  {
  }

  lemma LopsidedMoments(m: nat, ones: nat, level: real)
    ensures |Lopsided(m, ones)| == m + ones && Sum(Lopsided(m, ones)) == SumSq(Lopsided(m, ones)) == ones as real
    ensures 0.0 < level <= 1.0 ==> Below(Lopsided(m, ones), level) == m
  {
    ThenAdds([], 0.0, m, level, 0.0, 0.0);
    ThenAdds(Then([], 0.0, m), 1.0, ones, level, 0.0, 0.0);
    TimesOne(m as real);
    TimesOne(ones as real);
    hide Times, Square, Beyond, Less, Then;
  }

  lemma QuotientBelowOne(c: real, n: real)
    requires n > 0.0 && c < n
    ensures c / n < 1.0
  {
    var q := c / n;
    assert n * q == c;
  }

  lemma QuotientPositive(c: real, n: real)
    requires n > 0.0 && c > 0.0
    ensures c / n > 0.0
  {
    var q := c / n;
    assert n * q == c;
  }

  lemma QuotientScaled(c: real, n: real, k: real)
    requires n > 0.0
    ensures k * (c / n) == (k * c) / n
  {
    var q := c / n;
    assert n * q == c;
  }

  lemma TimesQuotient(n: real, c: real)
    requires n > 0.0
    ensures Times(n, c / n) == c
  {
  }

  lemma TimesLess(n: real, p: real, q: real)
    ensures Times(n, q - p) == Times(n, q) - Times(n, p)
  {
  }

  lemma Cancel(n: real, x: real)
    requires n > 0.0 && Times(n, x) == n
    ensures x == 1.0
  {
    assert (n * x) / n == x;
  }

  lemma QuotientSum(n: real, c: real)
    requires n > 0.0
    ensures (n + c) / n == 1.0 + c / n
  {
    hide Times;
    TimesQuotient(n, c);
    TimesQuotient(n, n + c);
    TimesLess(n, c / n, (n + c) / n);
    Cancel(n, (n + c) / n - c / n);
  }

  lemma AtLeast(k: real, p: real)
    requires k >= 1.0 && p > 0.0
    ensures k * p >= p
  {
  }

  /** A part of which even `k` are not the whole. */
  lemma PartOf(m: real, n: real, k: real, km: real)
    requires m > 0.0 && k >= 1.0 && n > 0.0 && km == k * m && km < n
    ensures 0.0 < m / n < 1.0 && Times(k, m / n) < 1.0
  {
    QuotientPositive(m, n);
    QuotientScaled(m, n, k);
    QuotientBelowOne(km, n);
    AtLeast(k, m / n);
  }

  lemma OneSidedAlgebra(p: real, k: real, mean: real, v: real)
    requires mean == 1.0 - p && v == mean - Square(mean)
    ensures v == Times(1.0 - p, p) && Square(mean) - Times(k - 1.0, v) == Times(1.0 - p, 1.0 - Times(k, p))
  {
  }

  /** If `k` parts `p` are not the whole, zero is far enough below the mean of `1 - p` ones. */
  lemma OneSidedMoments(p: real, k: real, mean: real, v: real)
    requires 0.0 < p < 1.0 && Times(k, p) < 1.0 && mean == 1.0 - p && v == mean - Square(mean)
    ensures v > 0.0 && Times(k - 1.0, v) < Square(mean)
  {
    OneSidedAlgebra(p, k, mean, v);
    TimesPositive(1.0 - p, p);
    hide Times, Square;
    TimesPositive(1.0 - p, 1.0 - Times(k, p));
  }

  lemma MomentsOf(xs: seq<real>, n: real, sum: real, sumSq: real)
    requires xs != [] && n == |xs| as real && sum == Sum(xs) && sumSq == SumSq(xs)
    ensures Mean(xs) == sum / n && Variance(xs) == sumSq / n - Square(sum / n)
  {
    hide Square;
  }

  lemma LopsidedMean(m: nat, ones: nat, n: real)
    requires m > 0 && n == (m + ones) as real
    ensures Lopsided(m, ones) != [] && Mean(Lopsided(m, ones)) == 1.0 - m as real / n
    ensures Variance(Lopsided(m, ones)) == Mean(Lopsided(m, ones)) - Square(Mean(Lopsided(m, ones)))
  {
    hide *;
    LopsidedMoments(m, ones, 1.0);
    MomentsOf(Lopsided(m, ones), n, ones as real, ones as real);
    OnesLeft(m, ones, n);
  }

  lemma OnesLeft(m: nat, ones: nat, n: real)
    requires m > 0 && n == (m + ones) as real
    ensures ones as real / n == 1.0 - m as real / n
  {
    QuotientSum(n, -(m as real));
    QuotientScaled(m as real, n, -1.0);
    assert ones as real == n + -(m as real) && -1.0 * m as real == -(m as real);
  }

  /** Zero is reported at `t` deviations below the mean, when `t` squared is `k - 1` and even `k` times
      the days at zero are not all of them. */
  lemma LopsidedLevel(sqrt: real -> real, m: nat, ones: nat, k: real, t: real) returns (mean: real, s: real)
    requires IsRoot(sqrt) && m > 0 && k >= 1.0 && t > 0.0 && t * t == k - 1.0
    requires k * m as real < (m + ones) as real
    ensures Lopsided(m, ones) != [] && mean == Mean(Lopsided(m, ones)) && s == sqrt(Variance(Lopsided(m, ones)))
    ensures s > 0.0 && 0.0 < mean - t * s <= 1.0
  {
    hide *;
    var n := (m + ones) as real;
    LopsidedMean(m, ones, n);
    mean := Mean(Lopsided(m, ones));
    var v := Variance(Lopsided(m, ones));
    PartOf(m as real, n, k, k * m as real);
    OneSidedMoments(m as real / n, k, mean, v);
    s := RootWithin(sqrt, v, k - 1.0, t, mean);
  }

  lemma RootWithin(sqrt: real -> real, v: real, tt: real, t: real, b: real) returns (s: real)
    requires IsRoot(sqrt) && v > 0.0 && t > 0.0 && b >= 0.0 && tt == t * t && Times(tt, v) < Square(b)
    ensures s == sqrt(v) && s > 0.0 && Square(s) == v && 0.0 < t * s < b
  {
    s := sqrt(v);
    RootIs(sqrt, v);
    RootBelow(s, b, t);
    TimesPositive(t, s);
    assert Times(t, s) == t * s;
  }

  /** What is reported of days whose average order values have the deviation `s`. */
  lemma DropsOfDays(sqrt: real -> real, xs: seq<real>, mean: real, s: real)
    requires |xs| >= 5 && mean == Mean(xs) && s == sqrt(Variance(xs)) && s > 0.0
    ensures Aovs(Days(xs)) == xs && NegativeDays(Days(xs)) == 0
    ensures |BusinessAnomalies(sqrt, Days(xs))| == Below(xs, mean - 2.0 * s)
    ensures ReportedCritical(BusinessAnomalies(sqrt, Days(xs)), AvgOrderValue) == Below(xs, mean - 3.0 * s)
  {
    hide Days, Aovs, NegativeDays, Mean, Variance, DropAnomalies, Below, ReportedCritical;
    AovsOfDays(xs);
    DropReports(Days(xs), mean, s, mean - 2.0 * s);
    CriticalDropReports(Days(xs), mean, s);
  }

  /** Of `5 m + 1` days with orders, `m` can be reported for a drop. */
  lemma DropBoundReached(sqrt: real -> real, m: nat)
    requires IsRoot(sqrt) && m > 0
    ensures |Aovs(Days(Lopsided(m, 4 * m + 1)))| == 5 * m + 1 && NegativeDays(Days(Lopsided(m, 4 * m + 1))) == 0
    ensures |BusinessAnomalies(sqrt, Days(Lopsided(m, 4 * m + 1)))| == m
  {
    hide *;
    var mean, s := LopsidedLevel(sqrt, m, 4 * m + 1, 5.0, 2.0);
    LopsidedMoments(m, 4 * m + 1, mean - 2.0 * s);
    DropsOfDays(sqrt, Lopsided(m, 4 * m + 1), mean, s);
  }

  /** Of `10 m + 1`, `m` can be reported as critical. */
  lemma CriticalDropBoundReached(sqrt: real -> real, m: nat)
    requires IsRoot(sqrt) && m > 0
    ensures |Aovs(Days(Lopsided(m, 9 * m + 1)))| == 10 * m + 1 && NegativeDays(Days(Lopsided(m, 9 * m + 1))) == 0
    ensures ReportedCritical(BusinessAnomalies(sqrt, Days(Lopsided(m, 9 * m + 1))), AvgOrderValue) == m
  {
    hide *;
    var mean, s := LopsidedLevel(sqrt, m, 9 * m + 1, 10.0, 3.0);
    LopsidedMoments(m, 9 * m + 1, mean - 3.0 * s);
    DropsOfDays(sqrt, Lopsided(m, 9 * m + 1), mean, s);
  }

  /** `j` numbers at zero, `j` at two and the rest at one. */
  function Balanced(j: nat, rest: nat): seq<real> {
    Then(Then(Then([], 0.0, j), 2.0, j), 1.0, rest)
  }

  lemma BalancedMoments(j: nat, rest: nat, t: real)
    ensures |Balanced(j, rest)| == 2 * j + rest && Sum(Balanced(j, rest)) == (2 * j + rest) as real
    ensures SumSq(Balanced(j, rest)) == (4 * j + rest) as real
    ensures 0.0 <= t < 1.0 ==> Beyond(Less(Balanced(j, rest), 1.0), t) == 2 * j
  {
    ThenAdds([], 0.0, j, 0.0, 1.0, t);
    ThenAdds(Then([], 0.0, j), 2.0, j, 0.0, 1.0, t);
    ThenAdds(Then(Then([], 0.0, j), 2.0, j), 1.0, rest, 0.0, 1.0, t);
    TimesOne(j as real);
    TimesOne(rest as real);
    assert Less([], 1.0) == [];
    hide Times, Square, Below, Less, Then;
  }

  lemma BalancedMean(j: nat, rest: nat)
    requires j > 0
    ensures Balanced(j, rest) != [] && Mean(Balanced(j, rest)) == 1.0
    ensures Variance(Balanced(j, rest)) == (2 * j) as real / (2 * j + rest) as real
  {
    hide *;
    var n := (2 * j + rest) as real;
    BalancedMoments(j, rest, 0.0);
    MomentsOf(Balanced(j, rest), n, n, (4 * j + rest) as real);
    QuotientSum(n, (2 * j) as real);
    QuotientSelf(n);
    TimesOne(1.0);
    assert (4 * j + rest) as real == n + (2 * j) as real;
  }

  lemma QuotientSelf(n: real)
    requires n > 0.0
    ensures n / n == 1.0
  {
  }

  /** Zero and two are reported at `t` deviations from the mean, when even `t` squared times the days at
      zero or two are not all of them. */
  lemma BalancedLevel(sqrt: real -> real, j: nat, rest: nat, k: real, t: real) returns (s: real)
    requires IsRoot(sqrt) && j > 0 && k >= 1.0 && t > 0.0 && k == t * t
    requires k * (2 * j) as real < (2 * j + rest) as real
    ensures Balanced(j, rest) != [] && Mean(Balanced(j, rest)) == 1.0 && s == sqrt(Variance(Balanced(j, rest)))
    ensures s > 0.0 && 0.0 < t * s < 1.0
  {
    hide *;
    BalancedMean(j, rest);
    var n, v := (2 * j + rest) as real, Variance(Balanced(j, rest));
    TimesOne(1.0);
    PartOf((2 * j) as real, n, k, k * (2 * j) as real);
    s := RootWithin(sqrt, v, k, t, 1.0);
  }

  /** What is reported of days whose revenues have mean one and deviation `s`. */
  lemma ReportsAroundOne(sqrt: real -> real, xs: seq<real>, s: real)
    requires xs != [] && Mean(xs) == 1.0 && s == sqrt(Variance(xs)) && s > 0.0
    ensures Reported(SalesAnomalies(sqrt, Days(xs)), TotalRevenue) == Beyond(Less(xs, 1.0), 2.0 * s)
    ensures ReportedCritical(SalesAnomalies(sqrt, Days(xs)), TotalRevenue) == Beyond(Less(xs, 1.0), 3.0 * s)
  {
    AovsOfDays(xs);
    var records := Days(xs);
    var first := RevenueAnomalies(records, 1.0, s);
    hide Days, Aovs, Mean, Variance, RevenueAnomalies, ZeroOrderAnomalies, Beyond, Less;
    hide Reported, ReportedCritical, Revenues;
    RevenueReports(records, 1.0, s);
    ZeroOrderReports(records);
    ReportedConcat(first, ZeroOrderAnomalies(records), TotalRevenue);
  }

  /** Of `8 j + 1` days, `2 j` can be reported for their revenue. */
  lemma RevenueBoundReached(sqrt: real -> real, j: nat)
    requires IsRoot(sqrt) && j > 0
    ensures |Days(Balanced(j, 6 * j + 1))| == 8 * j + 1
    ensures Reported(SalesAnomalies(sqrt, Days(Balanced(j, 6 * j + 1))), TotalRevenue) == 2 * j
  {
    hide *;
    var s := BalancedLevel(sqrt, j, 6 * j + 1, 4.0, 2.0);
    BalancedMoments(j, 6 * j + 1, 2.0 * s);
    ReportsAroundOne(sqrt, Balanced(j, 6 * j + 1), s);
  }

  /** Of `18 j + 1`, `2 j` can be reported as critical. */
  lemma CriticalRevenueBoundReached(sqrt: real -> real, j: nat)
    requires IsRoot(sqrt) && j > 0
    ensures |Days(Balanced(j, 16 * j + 1))| == 18 * j + 1
    ensures ReportedCritical(SalesAnomalies(sqrt, Days(Balanced(j, 16 * j + 1))), TotalRevenue) == 2 * j
  {
    hide *;
    var s := BalancedLevel(sqrt, j, 16 * j + 1, 9.0, 3.0);
    BalancedMoments(j, 16 * j + 1, 3.0 * s);
    ReportsAroundOne(sqrt, Balanced(j, 16 * j + 1), s);
  }

  // ---------- Days with a negative number of orders ----------

  /** Once a drop is reported, a further day can add a report without adding to the days with orders. */
  lemma OneMoreReport(sqrt: real -> real, records: seq<SalesDaily>, date: int) returns (r: SalesDaily)
    requires BusinessAnomalies(sqrt, records) != []
    ensures r.orders < 0 && Aovs(records + [r]) == Aovs(records)
    ensures NegativeDays(records + [r]) == NegativeDays(records) + 1
    ensures |BusinessAnomalies(sqrt, records + [r])| == |BusinessAnomalies(sqrt, records)| + 1
  {
    var mean, s := Mean(Aovs(records)), sqrt(Variance(Aovs(records)));
    r := SalesDaily(date, 1.0 - (mean - 2.0 * s), -1);
    assert Aov(r) == mean - 2.0 * s - 1.0;
    assert (records + [r])[..|records|] == records;
    assert Aovs(records) + [] == Aovs(records);
    hide Mean, Variance, Aov;
  }

  /** Six days with orders and two reports: with a negative day the bound of a fifth does not hold. */
  lemma NegativeDayBreaksBound(sqrt: real -> real) returns (records: seq<SalesDaily>)
    requires IsRoot(sqrt)
    ensures |Aovs(records)| == 6 && NegativeDays(records) == 1 && |BusinessAnomalies(sqrt, records)| == 2
  {
    DropBoundReached(sqrt, 1);
    hide BusinessAnomalies;
    var days := Days(Lopsided(1, 5));
    var r := OneMoreReport(sqrt, days, 6);
    records := days + [r];
  }
}
