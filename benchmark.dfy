/**
 * Comparison with a benchmark index: the inner join on dates, the portfolio returns recomputed
 * over the common dates, and the cumulative-return series of both.
 */
module Benchmark {
  import opened Frames
  import opened Returns
  import opened Metrics
  import opened Cumulative

  /** The positions in `a` of the dates `b` also has. */
  function Shared(a: ReturnFrame, b: ReturnFrame): (p: seq<nat>)
    requires a.Valid()
    ensures Increasing(p)
    ensures forall k :: 0 <= k < |p| ==> p[k] < |a.index| && a.index[p[k]] in b.index
    ensures forall i :: 0 <= i < |a.index| && a.index[i] in b.index ==> i in p
  {
    var mask := seq(|a.index|, i requires 0 <= i < |a.index| => a.index[i] in b.index);
    assert forall i :: 0 <= i < |a.index| ==> (mask[i] <==> a.index[i] in b.index);
    Positions(mask)
  }

  /** `pd.concat([a, b], axis=1, join='inner')`: the rows of `a` on the dates both have, each
      followed by the row of `b` for that date. */
  function InnerJoin(a: ReturnFrame, b: ReturnFrame): (j: ReturnFrame)
    requires a.Valid() && b.Valid()
    ensures j.Valid() && j.columns == a.columns + b.columns
    ensures forall d :: d in j.index <==> d in a.index && d in b.index
  {
    var keep := Shared(a, b);
    SelectIncreasing(a.index, keep);
    var dates := Select(a.index, keep);
    assert forall d :: d in a.index && d in b.index ==> d in dates by {
      forall d | d in a.index && d in b.index
        ensures d in dates
      {
        var i :| 0 <= i < |a.index| && a.index[i] == d;
        var k :| 0 <= k < |keep| && keep[k] == i;
        assert dates[k] == d;
      }
    }
    ReturnFrame(dates, a.columns + b.columns,
      seq(|keep|, k requires 0 <= k < |keep| => a.rows[keep[k]] + b.rows[IndexOf(b.index, a.index[keep[k]])]))
  }

  /** The joined index holds exactly the dates present in both tables (ascending, so in order),
      and each joined row is the two tables' rows for that date side by side. */
  lemma InnerJoinExact(a: ReturnFrame, b: ReturnFrame)
    requires a.Valid() && b.Valid()
    ensures forall d :: d in InnerJoin(a, b).index <==> d in a.index && d in b.index
    ensures forall k :: 0 <= k < |InnerJoin(a, b).index| ==>
      var d := InnerJoin(a, b).index[k];
      d in a.index && d in b.index &&
      InnerJoin(a, b).rows[k] == a.rows[IndexOf(a.index, d)] + b.rows[IndexOf(b.index, d)]
  {
    var keep := Shared(a, b);
    var j := InnerJoin(a, b);
    forall k | 0 <= k < |j.index|
      ensures j.rows[k] == a.rows[IndexOf(a.index, j.index[k])] + b.rows[IndexOf(b.index, j.index[k])]
    {
      IndexOfUnique(a.index, keep[k]);
    }
  }

  /** The column label the benchmark's returns get in the joined table. */
  const BENCHMARK_LABEL: Symbol := "Benchmark"

  datatype Comparison = Comparison(
    aligned: ReturnFrame,       // stock returns and benchmark return on the common dates
    portfolio: seq<real>,       // portfolio returns recomputed over those dates
    benchmark: seq<real>,       // the benchmark column
    portfolioCum: seq<real>,    // cumulative growth of the portfolio
    benchmarkCum: seq<real>     // cumulative growth of the benchmark
  )

  datatype BenchmarkOutcome =
    | NoBenchmarkData           // the fetch returned nothing: a warning, no comparison
    | Compared(comparison: Comparison)

  /** The row without its last (benchmark) cell: `aligned_returns.iloc[:, :-1]`. */
  function StockPart(rows: seq<seq<real>>, width: nat): (s: seq<seq<real>>)
    requires Rectangular(rows, width + 1)
    ensures |s| == |rows| && Rectangular(s, width)
  {
    seq(|rows|, k requires 0 <= k < |rows| => rows[k][..width])
  }

  /** The comparison block run once benchmark prices (one column) have been fetched. */
  function CompareBenchmark(daily: ReturnFrame, weights: seq<real>, benchPrices: PriceFrame, fill: FillMethod)
    : (o: BenchmarkOutcome)
    requires daily.Valid() && |weights| == |daily.columns|
    requires benchPrices.Valid() && |benchPrices.columns| == 1
    ensures o.NoBenchmarkData? <==> benchPrices.index == []
    ensures o.Compared? ==>
      var c := o.comparison;
      c.aligned.Valid() && c.aligned.columns == daily.columns + [BENCHMARK_LABEL] &&
      |c.portfolio| == |c.benchmark| == |c.aligned.index| &&
      c.portfolioCum == CumProd(c.portfolio) && c.benchmarkCum == CumProd(c.benchmark)
  {
    if benchPrices.index == [] then NoBenchmarkData
    else
      var joined := InnerJoin(daily, DailyReturns(benchPrices, fill));
      var aligned := joined.(columns := daily.columns + [BENCHMARK_LABEL]);
      var pr := PortfolioReturns(StockPart(aligned.rows, |weights|), weights);
      var br := Column(aligned.rows, |weights|);
      Compared(Comparison(aligned, pr, br, CumProd(pr), CumProd(br)))
  }

  /**
   * Over the common dates the recomputed portfolio returns are the daily portfolio returns of
   * those dates, with the same weights; the benchmark column is the benchmark's return that day.
   */
  lemma ComparisonAligned(daily: ReturnFrame, weights: seq<real>, benchPrices: PriceFrame, fill: FillMethod)
    requires daily.Valid() && |weights| == |daily.columns|
    requires benchPrices.Valid() && |benchPrices.columns| == 1 && benchPrices.index != []
    ensures var c := CompareBenchmark(daily, weights, benchPrices, fill).comparison;
      var bench := DailyReturns(benchPrices, fill);
      (forall d :: d in c.aligned.index <==> d in daily.index && d in bench.index) &&
      forall k :: 0 <= k < |c.aligned.index| ==>
        var d := c.aligned.index[k];
        c.portfolio[k] == PortfolioReturns(daily.rows, weights)[IndexOf(daily.index, d)] &&
        c.benchmark[k] == bench.rows[IndexOf(bench.index, d)][0]
  {
    var bench := DailyReturns(benchPrices, fill);
    InnerJoinExact(daily, bench);
    var joined := InnerJoin(daily, bench);
    var c := CompareBenchmark(daily, weights, benchPrices, fill).comparison;
    var n := |weights|;
    forall k | 0 <= k < |c.aligned.index|
      ensures c.portfolio[k] == PortfolioReturns(daily.rows, weights)[IndexOf(daily.index, c.aligned.index[k])]
      ensures c.benchmark[k] == bench.rows[IndexOf(bench.index, c.aligned.index[k])][0]
    {
      var d := joined.index[k];
      var row := daily.rows[IndexOf(daily.index, d)];
      var brow := bench.rows[IndexOf(bench.index, d)];
      assert joined.rows[k] == row + brow;
      assert (row + brow)[..n] == row;
      assert StockPart(joined.rows, n)[k] == row;
    }
  }
}
