/**
 * The linear portfolio metrics: annualised expected returns, the portfolio's expected return,
 * its realised daily returns, their downside part and the 5th-percentile Value-at-Risk.
 */
module Metrics {
  import opened Numeric
  import opened Frames
  import opened Sorting

  /** Trading days per year, the annualisation factor. */
  const TRADING_DAYS: real := 252.0

  /** The percentile reported as Value-at-Risk at 95% confidence. */
  const VAR_PERCENTILE: real := 5.0

  /**
   * `returns.mean() * 252`: each column's mean return, annualised. Each entry is the column's
   * total scaled by `252 / rows`.
   */
  function ExpectedReturns(rows: seq<seq<real>>, width: nat): (er: seq<real>)
    requires |rows| > 0 && Rectangular(rows, width)
    ensures |er| == width
    ensures er == Scale(TRADING_DAYS / (|rows| as real), ColumnSums(rows, width))
  {
    var count := |rows| as real;
    var er := seq(width, s requires 0 <= s < width => TRADING_DAYS * Mean(Column(rows, s)));
    assert er == Scale(TRADING_DAYS / count, ColumnSums(rows, width)) by {
      forall s | 0 <= s < width
        ensures er[s] == Scale(TRADING_DAYS / count, ColumnSums(rows, width))[s]
      {
        MulDivSwap(TRADING_DAYS, Sum(Column(rows, s)), count);
      }
    }
    er
  }

  /**
   * `np.dot(weights, expected_returns)`. By linearity it is the annualised mean of the daily
   * portfolio returns.
   */
  function PortfolioReturn(rows: seq<seq<real>>, weights: seq<real>): (r: real)
    requires |rows| > 0 && Rectangular(rows, |weights|)
    ensures r == TRADING_DAYS * Mean(PortfolioReturns(rows, weights))
  {
    AnnualisedLinearity(rows, weights);
    Dot(weights, ExpectedReturns(rows, |weights|))
  }

  /**
   * The weighted annualised means equal the annualised mean of the weighted daily returns:
   * `w · (252 · mean(R[:, s]))_s == 252 · mean(R · w)`.
   */
  lemma AnnualisedLinearity(rows: seq<seq<real>>, weights: seq<real>)
    requires |rows| > 0 && Rectangular(rows, |weights|)
    ensures Dot(weights, ExpectedReturns(rows, |weights|)) == TRADING_DAYS * Mean(PortfolioReturns(rows, weights))
  {
    AnnualiseWeighted(weights, ColumnSums(rows, |weights|), PortfolioReturns(rows, weights));
  }

  /** Weighting column totals scaled by `252 / n` gives `252` times the mean of the weighted rows. */
  lemma AnnualiseWeighted(w: seq<real>, sums: seq<real>, pr: seq<real>)
    requires |w| == |sums| && |pr| > 0
    requires Dot(w, sums) == Sum(pr)
    ensures Dot(w, Scale(TRADING_DAYS / (|pr| as real), sums)) == TRADING_DAYS * Mean(pr)
  {
    DotScale(w, TRADING_DAYS / (|pr| as real), sums);
    MulEqual(TRADING_DAYS / (|pr| as real), Dot(w, sums), Sum(pr));
    MulDivSwap(TRADING_DAYS, Sum(pr), |pr| as real);
  }

  /**
   * `np.dot(returns, weights)`: the weighted return of each row. Their total is the weighted
   * total of the columns.
   */
  function PortfolioReturns(rows: seq<seq<real>>, weights: seq<real>): (pr: seq<real>)
    requires Rectangular(rows, |weights|)
    ensures |pr| == |rows|
    ensures forall t :: 0 <= t < |rows| ==> pr[t] == Dot(rows[t], weights)
    ensures Sum(pr) == Dot(weights, ColumnSums(rows, |weights|))
  {
    var pr := seq(|rows|, t requires 0 <= t < |rows| => Dot(rows[t], weights));
    WeightedColumnSums(rows, weights, pr);
    pr
  }

  function ColumnSums(rows: seq<seq<real>>, width: nat): (cs: seq<real>)
    requires Rectangular(rows, width)
    ensures |cs| == width
  {
    seq(width, s requires 0 <= s < width => Sum(Column(rows, s)))
  }

  /** Weighting the column totals is totalling the weighted rows `pr`. */
  lemma {:induction false} WeightedColumnSums(rows: seq<seq<real>>, weights: seq<real>, pr: seq<real>)
    requires Rectangular(rows, |weights|)
    requires |pr| == |rows| && forall t :: 0 <= t < |rows| ==> pr[t] == Dot(rows[t], weights)
    ensures Dot(weights, ColumnSums(rows, |weights|)) == Sum(pr)
  {
    var n := |weights|;
    if rows == [] {
      DotZeros(weights, ColumnSums(rows, n));
    } else {
      var tail := rows[1..];
      forall s | 0 <= s < n
        ensures Column(rows, s) == [rows[0][s]] + Column(tail, s)
      {
      }
      assert ColumnSums(rows, n) == Add(rows[0], ColumnSums(tail, n));
      assert pr == [pr[0]] + pr[1..];
      SumConcat([pr[0]], pr[1..]);
      DotAdd(weights, rows[0], ColumnSums(tail, n));
      DotCommutes(weights, rows[0]);
      WeightedColumnSums(tail, weights, pr[1..]);
    }
  }

  /**
   * `portfolio_returns[portfolio_returns < 0]`: only losses, every losing day, at most one
   * entry per day.
   */
  function Downside(pr: seq<real>): (d: seq<real>)
    ensures |d| <= |pr|
    ensures forall x :: x in d ==> x < 0.0
    ensures forall t :: 0 <= t < |pr| && pr[t] < 0.0 ==> pr[t] in d
  {
    var p := Losses(pr);
    var d := Select(pr, p);
    assert forall t :: 0 <= t < |pr| && pr[t] < 0.0 ==> pr[t] in d by {
      forall t | 0 <= t < |pr| && pr[t] < 0.0
        ensures pr[t] in d
      {
        var k :| 0 <= k < |p| && p[k] == t;
        assert d[k] == pr[t];
      }
    }
    LossesBound(pr);
    d
  }

  /** The positions of the losing days, ascending: exactly the days with a negative return. */
  function Losses(pr: seq<real>): (p: seq<nat>)
    ensures Increasing(p)
    ensures forall k :: 0 <= k < |p| ==> p[k] < |pr| && pr[p[k]] < 0.0
    ensures forall t :: 0 <= t < |pr| && pr[t] < 0.0 ==> t in p
  {
    var mask := seq(|pr|, t requires 0 <= t < |pr| => pr[t] < 0.0);
    assert forall t :: 0 <= t < |pr| ==> (mask[t] <==> pr[t] < 0.0);
    Positions(mask)
  }

  lemma LossesBound(pr: seq<real>)
    ensures |Losses(pr)| <= |pr|
  {
    PositionsBound(seq(|pr|, t requires 0 <= t < |pr| => pr[t] < 0.0));
  }

  /**
   * The downside series is the order-preserving subsequence of exactly the negative returns:
   * it picks ascending positions, each a loss, and misses no loss.
   */
  lemma DownsideExact(pr: seq<real>)
    ensures Increasing(Losses(pr))
    ensures |Downside(pr)| == |Losses(pr)|
    ensures forall k :: 0 <= k < |Losses(pr)| ==> Downside(pr)[k] == pr[Losses(pr)[k]] && pr[Losses(pr)[k]] < 0.0
    ensures forall t :: 0 <= t < |pr| && pr[t] < 0.0 ==> t in Losses(pr)
    ensures forall x :: x in Downside(pr) ==> x < 0.0
  {
  }

  function Identity(x: real): real
  {
    x
  }

  /** The virtual position `(n - 1) * q / 100` of the `q`-th percentile among `n` ordered samples. */
  function VirtualPosition(n: nat, q: real): (h: real)
    requires n > 0 && 0.0 <= q <= 100.0
    ensures 0.0 <= h <= (n - 1) as real
  {
    ScaleWithin((n - 1) as real, q / 100.0);
    assert (n - 1) as real * (q / 100.0) <= (n - 1) as real;
    (n - 1) as real * (q / 100.0)
  }

  /** The value at virtual position `h` of an ordered sample, interpolating between neighbours. */
  function Interpolated(sorted: seq<real>, h: real): real
    requires |sorted| > 0 && 0.0 <= h <= (|sorted| - 1) as real
  {
    FloorWithin(h, |sorted| - 1);
    var lo := h.Floor;
    if lo + 1 < |sorted| then sorted[lo] + (h - lo as real) * (sorted[lo + 1] - sorted[lo])
    else sorted[lo]
  }

  /** In an ordered sample the interpolated value lies between the first and the last sample. */
  lemma InterpolatedWithinRange(sorted: seq<real>, h: real)
    requires |sorted| > 0 && 0.0 <= h <= (|sorted| - 1) as real
    requires SortedBy(sorted, Identity)
    ensures sorted[0] <= Interpolated(sorted, h) <= sorted[|sorted| - 1]
  {
    FloorWithin(h, |sorted| - 1);
    var lo := h.Floor;
    var last := |sorted| - 1;
    Ordered(sorted, 0, lo);
    if lo + 1 < |sorted| {
      var a, b, f := sorted[lo], sorted[lo + 1], h - lo as real;
      var v := Interpolated(sorted, h);
      assert v == a + f * (b - a);
      Ordered(sorted, lo + 1, last);
      Ordered(sorted, lo, lo + 1);
      InterpolateWithin(a, b, f);
      assert a <= v <= b;
    } else {
      Ordered(sorted, lo, last);
    }
  }

  /** Samples of an ordered sample are in order. */
  lemma Ordered(sorted: seq<real>, i: nat, j: nat)
    requires SortedBy(sorted, Identity) && i <= j < |sorted|
    ensures sorted[i] <= sorted[j]
  {
    if i < j {
      assert Identity(sorted[i]) <= Identity(sorted[j]);
    }
  }

  /**
   * `np.percentile(x, q)` with its default linear method: the order statistic at the virtual
   * position, interpolated linearly towards the next one. It lies between the smallest and the
   * largest sample.
   */
  function Percentile(x: seq<real>, q: real): (p: real)
    requires |x| > 0 && 0.0 <= q <= 100.0
    ensures Min(x) <= p <= Max(x)
  {
    var sorted := SortBy(x, Identity);
    SortBySorted(x, Identity);
    InterpolatedWithinRange(sorted, VirtualPosition(|x|, q));
    assert sorted[0] in multiset(sorted) && sorted[|x| - 1] in multiset(sorted);
    assert sorted[0] in x && sorted[|x| - 1] in x;
    Interpolated(sorted, VirtualPosition(|x|, q))
  }

  /** `np.percentile(portfolio_returns, 5)`. */
  function ValueAtRisk(pr: seq<real>): (v: real)
    requires |pr| > 0
    ensures Min(pr) <= v <= Max(pr)
  {
    Percentile(pr, VAR_PERCENTILE)
  }

  /** Two stocks with daily returns (1%, 2%), (-1%, 1%), (2%, -2%) held half and half. */
  lemma TwoStockReturns()
    ensures PortfolioReturns([[0.01, 0.02], [-0.01, 0.01], [0.02, -0.02]], [0.5, 0.5]) == [0.015, 0.0, 0.0]
  {
    var rows := [[0.01, 0.02], [-0.01, 0.01], [0.02, -0.02]];
    var w := [0.5, 0.5];
    assert Dot(rows[0], w) == 0.015;
    assert Dot(rows[1], w) == 0.0;
    assert Dot(rows[2], w) == 0.0;
  }

  /** Ordering those portfolio returns moves the gain behind the two flat days. */
  lemma TwoStockOrdered()
    ensures SortBy([0.015, 0.0, 0.0], Identity) == [0.0, 0.0, 0.015]
  {
    var pr := [0.015, 0.0, 0.0];
    assert pr[1..] == [0.0, 0.0];
    FlatDaysOrdered();
    GainInsertedLast();
  }

  lemma FlatDaysOrdered()
    ensures SortBy([0.0, 0.0], Identity) == [0.0, 0.0]
  {
    assert [0.0, 0.0][1..] == [0.0] && [0.0][1..] == [];
    assert SortBy([0.0], Identity) == [0.0];
  }

  lemma GainInsertedLast()
    ensures Insert(0.015, [0.0, 0.0], Identity) == [0.0, 0.0, 0.015]
  {
    assert [0.0, 0.0][1..] == [0.0] && [0.0][1..] == [];
    assert Insert(0.015, [0.0], Identity) == [0.0, 0.015];
  }

  /**
   * With three samples the 5th percentile sits a tenth of the way from the first ordered
   * sample to the second; both are 0, so the Value-at-Risk is exactly 0.
   */
  lemma TwoStockValueAtRisk()
    ensures ValueAtRisk([0.015, 0.0, 0.0]) == 0.0
  {
    TwoStockOrdered();
    assert VirtualPosition(3, VAR_PERCENTILE) == 0.1;
    assert 0.1.Floor == 0;
  }
}
