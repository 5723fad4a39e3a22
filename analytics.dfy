/**
 * The metrics block as a pipeline: price table → daily returns → weight checks → metrics and,
 * when benchmark prices are available, the benchmark comparison.
 */
module Analytics {
  import opened Wrappers
  import opened Numeric
  import opened Frames
  import opened Returns
  import opened Validation
  import opened Metrics
  import opened Benchmark

  datatype MetricsResult = MetricsResult(
    portfolioReturn: real,        // annualised expected return of the portfolio
    portfolioReturns: seq<real>,  // realised daily portfolio returns
    downside: seq<real>,          // the losing days among them
    valueAtRisk: real             // their 5th percentile
  )

  /** The linear metrics of a validated weight vector over a non-empty return table. */
  function PortfolioMetrics(daily: ReturnFrame, weights: seq<real>): (m: MetricsResult)
    requires daily.Valid() && |weights| == |daily.columns| && |daily.rows| > 0
    ensures |m.portfolioReturns| == |daily.rows|
    ensures forall t :: 0 <= t < |daily.rows| ==> m.portfolioReturns[t] == Dot(daily.rows[t], weights)
    ensures m.portfolioReturn == TRADING_DAYS * Mean(m.portfolioReturns)
    ensures m.downside == Downside(m.portfolioReturns) && m.valueAtRisk == ValueAtRisk(m.portfolioReturns)
    ensures Min(m.portfolioReturns) <= m.valueAtRisk <= Max(m.portfolioReturns)
    ensures forall x :: x in m.downside ==> x < 0.0
    ensures forall t :: 0 <= t < |daily.rows| && m.portfolioReturns[t] < 0.0 ==> m.portfolioReturns[t] in m.downside
  {
    var pr := PortfolioReturns(daily.rows, weights);
    MetricsResult(PortfolioReturn(daily.rows, weights), pr, Downside(pr), ValueAtRisk(pr))
  }

  datatype Report = Report(metrics: MetricsResult, benchmark: BenchmarkOutcome)

  /**
   * Validate the weights against the selected stocks (the price table's columns), and only on
   * acceptance compute the metrics and the benchmark comparison. The metrics do not depend on
   * what the benchmark fetch returned. Rejected weights are reported whatever the prices are;
   * only accepted weights need a return row to average over.
   */
  function Analyze(prices: PriceFrame, weights: seq<real>, benchPrices: PriceFrame, fill: FillMethod)
    : (r: Result<Report, ValidationError>)
    requires prices.Valid()
    requires ValidateWeights(weights, |prices.columns|).Success? ==> |DailyReturns(prices, fill).rows| > 0
    requires benchPrices.Valid() && |benchPrices.columns| == 1
    ensures r.Success? <==> |weights| == |prices.columns| && Sum(weights) == 1.0
    ensures |weights| != |prices.columns| ==> r == Failure(CountMismatch)
    ensures r.Failure? ==> ValidateWeights(weights, |prices.columns|) == Failure(r.error)
    ensures r.Success? ==> r.value.metrics == PortfolioMetrics(DailyReturns(prices, fill), weights)
    ensures r.Success? ==> (r.value.benchmark.NoBenchmarkData? <==> benchPrices.index == [])
    ensures r.Success? ==> r.value.benchmark == CompareBenchmark(DailyReturns(prices, fill), weights, benchPrices, fill)
  {
    var daily := DailyReturns(prices, fill);
    match ValidateWeights(weights, |prices.columns|)
    case Failure(e) => Failure(e)
    case Success(w) =>
      Success(Report(PortfolioMetrics(daily, w), CompareBenchmark(daily, w, benchPrices, fill)))
  }

  /**
   * A single price date gives no return row, yet the weights are still checked: two weights
   * for one stock are rejected for their count.
   */
  lemma SinglePriceDateCountChecked()
    ensures Analyze(PriceFrame([1], ["AAPL"], [[Some(10.0)]]), [0.5, 0.5],
                    PriceFrame([], ["^GSPC"], []), Pad) == Failure(CountMismatch)
  {
    var prices := PriceFrame([1], ["AAPL"], [[Some(10.0)]]);
    assert prices.Valid();
    assert PriceFrame([], ["^GSPC"], []).Valid();
  }
}
