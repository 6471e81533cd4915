/** What the anomaly reports of services/analytics-service/internal/controller/service.go say, day by day. */
module AnomalyLaws {
  import opened Statistics
  import opened Anomalies

  // ---------- Revenue ----------

  /** The day's revenue is more than two deviations from the mean, and critical beyond three. The threshold
      shown is the upper one, also for a day below the mean. */
  predicate RevenueReport(a: Anomaly, r: SalesDaily, mean: real, stddev: real) {
    && (r.revenue > mean + 2.0 * stddev || r.revenue < mean - 2.0 * stddev)
    && a.metric == TotalRevenue && a.value == r.revenue && a.threshold == mean + 2.0 * stddev && a.date == r.date
    && (a.severity == Critical <==> r.revenue > mean + 3.0 * stddev || r.revenue < mean - 3.0 * stddev)
  }

  lemma RevenueOfDay(records: seq<SalesDaily>, r: SalesDaily, mean: real, stddev: real)
    ensures var (before, after) := (RevenueAnomalies(records, mean, stddev),
                                    RevenueAnomalies(records + [r], mean, stddev));
            if r.revenue > mean + 2.0 * stddev || r.revenue < mean - 2.0 * stddev then
              |after| == |before| + 1 && after[..|before|] == before && RevenueReport(after[|before|], r, mean, stddev)
            else after == before
  {
    assert (records + [r])[..|records|] == records;
    var before := RevenueAnomalies(records, mean, stddev);
    assert before + [] == before;
  }

  /** Revenue reports are for the days that are off, each with that day's figures. */
  lemma {:induction false} RevenueReportsAre(records: seq<SalesDaily>, mean: real, stddev: real, a: Anomaly)
    ensures a in RevenueAnomalies(records, mean, stddev) <==>
            exists i | 0 <= i < |records| :: RevenueReport(a, records[i], mean, stddev)
  {
    if records != [] {
      var n := |records| - 1;
      RevenueReportsAre(records[..n], mean, stddev, a);
      RevenueOfDay(records[..n], records[n], mean, stddev);
      assert records == records[..n] + [records[n]];
      hide RevenueAnomalies;
      var before, after := RevenueAnomalies(records[..n], mean, stddev), RevenueAnomalies(records, mean, stddev);
      LastOrBefore(before, after, a);
      if |after| == |before| + 1 {
        SameRevenueReport(records[n], mean, stddev, a, after[|before|]);
      }
      assert forall i | 0 <= i < n :: records[..n][i] == records[i];
    }
  }

  /** There is one revenue report for one day. */
  lemma SameRevenueReport(r: SalesDaily, mean: real, stddev: real, a: Anomaly, b: Anomaly)
    requires RevenueReport(b, r, mean, stddev)
    ensures RevenueReport(a, r, mean, stddev) <==> a == b
  {
  }

  lemma LastOrBefore(before: seq<Anomaly>, after: seq<Anomaly>, a: Anomaly)
    requires after == before || (|after| == |before| + 1 && after[..|before|] == before)
    ensures a in after <==> a in before || (|after| == |before| + 1 && a == after[|before|])
  {
    if |after| == |before| + 1 {
      assert after == before + [after[|before|]];
    }
  }

  // ---------- Days without orders ----------

  predicate ZeroOrderReport(a: Anomaly, r: SalesDaily) {
    r.orders == 0 && a == Anomaly(TotalOrders, 0.0, 1.0, r.date, Warning)
  }

  lemma ZeroOrdersOfDay(records: seq<SalesDaily>, r: SalesDaily)
    ensures ZeroOrderAnomalies(records + [r]) ==
            ZeroOrderAnomalies(records) +
            if r.orders == 0 then [Anomaly(TotalOrders, 0.0, 1.0, r.date, Warning)] else []
  {
    assert (records + [r])[..|records|] == records;
  }

  lemma {:induction false} ZeroOrderReportsAre(records: seq<SalesDaily>, a: Anomaly)
    ensures a in ZeroOrderAnomalies(records) <==> exists i | 0 <= i < |records| :: ZeroOrderReport(a, records[i])
  {
    if records != [] {
      var n := |records| - 1;
      ZeroOrderReportsAre(records[..n], a);
      ZeroOrdersOfDay(records[..n], records[n]);
      assert records == records[..n] + [records[n]];
      hide ZeroOrderAnomalies;
      assert forall i | 0 <= i < n :: records[..n][i] == records[i];
    }
  }

  /** The sales report: the days without orders, and if revenue varies at all, the days whose revenue is off,
      measured by the mean and the root of the variance over all days. */
  lemma SalesReportsExactly(sqrt: real -> real, records: seq<SalesDaily>, a: Anomaly)
    requires IsRoot(sqrt) && records != []
    ensures var xs := Revenues(records);
            var (mean, stddev) := (Mean(xs), sqrt(Variance(xs)));
            a in SalesAnomalies(sqrt, records) <==>
              || (Variance(xs) > 0.0 && exists i | 0 <= i < |records| :: RevenueReport(a, records[i], mean, stddev))
              || exists i | 0 <= i < |records| :: ZeroOrderReport(a, records[i])
  {
    var xs := Revenues(records);
    VarianceIsSpread(xs);
    RootSign(sqrt, Variance(xs));
    RevenueReportsAre(records, Mean(xs), sqrt(Variance(xs)), a);
    ZeroOrderReportsAre(records, a);
    hide RevenueReport, ZeroOrderReport, RevenueAnomalies, ZeroOrderAnomalies, Variance, Mean, Revenues, IsRoot;
  }

  lemma RootSign(sqrt: real -> real, v: real)
    requires IsRoot(sqrt) && v >= 0.0
    ensures sqrt(v) > 0.0 <==> v > 0.0
  {
    assert sqrt(v) >= 0.0 && Square(sqrt(v)) == v;
    if sqrt(v) > 0.0 { SquarePositive(sqrt(v)); }
  }

  // ---------- Average order values ----------

  /** The average order values are those of the days with a positive number of orders. */
  lemma AovsAre(records: seq<SalesDaily>, r: SalesDaily)
    ensures Aovs([]) == []
    ensures r.orders <= 0 ==> Aovs(records + [r]) == Aovs(records)
    ensures r.orders > 0 ==> Aovs(records + [r]) == Aovs(records) + [r.revenue / r.orders as real]
  {
    assert (records + [r])[..|records|] == records;
    assert Aovs(records) + [] == Aovs(records);
  }

  /** The day has orders and their average value is more than two deviations below the mean, critical
      beyond three. */
  predicate DropReport(a: Anomaly, r: SalesDaily, mean: real, stddev: real) {
    && r.orders != 0
    && var aov := r.revenue / r.orders as real;
       && aov < mean - 2.0 * stddev
       && a.metric == AvgOrderValue && a.value == aov && a.threshold == mean - 2.0 * stddev && a.date == r.date
       && (a.severity == Critical <==> aov < mean - 3.0 * stddev)
  }

  lemma DropOfDay(records: seq<SalesDaily>, r: SalesDaily, mean: real, stddev: real)
    ensures var (before, after) := (DropAnomalies(records, mean, stddev), DropAnomalies(records + [r], mean, stddev));
            if r.orders != 0 && r.revenue / r.orders as real < mean - 2.0 * stddev then
              |after| == |before| + 1 && after[..|before|] == before && DropReport(after[|before|], r, mean, stddev)
            else after == before
  {
    assert (records + [r])[..|records|] == records;
    var before := DropAnomalies(records, mean, stddev);
    assert before + [] == before;
  }

  lemma {:induction false} DropReportsAre(records: seq<SalesDaily>, mean: real, stddev: real, a: Anomaly)
    ensures a in DropAnomalies(records, mean, stddev) <==>
            exists i | 0 <= i < |records| :: DropReport(a, records[i], mean, stddev)
  {
    if records != [] {
      var n := |records| - 1;
      DropReportsAre(records[..n], mean, stddev, a);
      DropOfDay(records[..n], records[n], mean, stddev);
      assert records == records[..n] + [records[n]];
      hide DropAnomalies;
      var before, after := DropAnomalies(records[..n], mean, stddev), DropAnomalies(records, mean, stddev);
      LastOrBefore(before, after, a);
      if |after| == |before| + 1 {
        SameDropReport(records[n], mean, stddev, a, after[|before|]);
      }
      assert forall i | 0 <= i < n :: records[..n][i] == records[i];
    }
  }

  /** There is one drop report for one day. */
  lemma SameDropReport(r: SalesDaily, mean: real, stddev: real, a: Anomaly, b: Anomaly)
    requires DropReport(b, r, mean, stddev)
    ensures DropReport(a, r, mean, stddev) <==> a == b
  {
  }

  /** The business report: if at least five days have orders and their average values vary at all, the days
      that dropped, measured by the mean and the root of the variance of those values. */
  lemma BusinessReportsExactly(sqrt: real -> real, records: seq<SalesDaily>, a: Anomaly)
    requires IsRoot(sqrt)
    ensures var xs := Aovs(records);
            a in BusinessAnomalies(sqrt, records) <==>
            && |xs| >= 5 && Variance(xs) > 0.0
            && exists i | 0 <= i < |records| :: DropReport(a, records[i], Mean(xs), sqrt(Variance(xs)))
  {
    var xs := Aovs(records);
    if |xs| >= 5 {
      VarianceIsSpread(xs);
      RootSign(sqrt, Variance(xs));
      DropReportsAre(records, Mean(xs), sqrt(Variance(xs)), a);
      hide DropReport, DropAnomalies, Variance, Mean, Aovs, IsRoot;
    }
  }
}
