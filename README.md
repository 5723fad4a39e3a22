# Portfolio Risk Management System — analytics core in Dafny

This project models the analytics that the Streamlit script `app.py` runs between fetching
prices and drawing charts, and proves properties of that model. The script:

- builds a candidate stock list from the selected sectors;
- turns adjusted close prices into simple daily returns;
- checks a weight vector;
- computes the annualised expected return, the daily portfolio returns, their losing days and
  the 5th-percentile Value-at-Risk (VaR);
- aligns the portfolio with a benchmark index on common dates and forms cumulative-return
  series;
- sums the weights per sector;
- ranks the stocks by total return and shows the top and bottom three.

All arithmetic is over Dafny's exact `real` numbers. They idealise the script's floating-point
numbers: rounding is not modelled.

Modules, one per component:

- `Universe` (universe.dfy): the fixed sector table and the candidate-list loop.
- `Validation` (validation.dfy): the count check, then the exact sum check.
- `Frames` (frames.dfy): date-indexed price and return tables, and boolean-mask selection. Mask
  selection is shared by `dropna`, the downside filter and the inner join.
- `Returns` (returns.dfy): `pct_change().dropna()`.
- `Metrics` (metrics.dfy): expected returns, portfolio return(s), downside and percentile VaR.
- `Sorting` (sorting.dfy): a stable insertion sort by a real key. It serves both the percentile
  ordering and the descending ranking.
- `Cumulative` (cumulative.dfy): `(1 + r).cumprod()` and total return.
- `Benchmark` (benchmark.dfy): inner join, recomputed portfolio returns and cumulative series.
- `Allocation` (allocation.dfy): the sector-allocation loop and its partition sum.
- `Performers` (performers.dfy): per-stock total return, ranking, and head and tail of three.
- `Analytics` (analytics.dfy): the validated pipeline.
- `Numeric` and `Wrappers`: sums, dot products, means and extrema; Option and Result.

Two loops in the script change state step by step. They are methods with loop invariants:
`Universe.CandidateStocks` extends a list, and `Allocation.SectorAllocation` fills a
dictionary. The vectorised pandas and numpy expressions are functions with lemmas.

The market-data provider, the user's choices and the benchmark fetch are inputs here. The price
table and benchmark prices are parameters, and so is the parsed weight vector. The model
assumes that the price columns are the selected stocks, in the order the weights refer to.

Points where the code's behaviour is easy to misread, and what the model does:

- The sum check at app.py:61 is exact equality with 1, with no tolerance. The model checks
  exact equality too.
- `pct_change` at app.py:49 is called without `fill_method`. Before pandas 3 this
  forward-fills missing prices in each column; from pandas 3 on it does not. The model takes
  the fill method as a parameter (`Returns.FillMethod`). It proves which rows each method
  keeps, and that the two agree on a table without gaps.
- The loop at app.py:162-165 gives every selected sector an allocation entry. The entry is
  zero when none of the sector's stocks is selected. The model keeps such zero entries.
- The benchmark comparison is skipped, with a warning outcome, only when the fetched benchmark
  table has no rows (`benchmark_data.empty`). One benchmark price gives an empty aligned series,
  not a warning.

## Model

| member | source | states |
|---|---|---|
| `Universe.CandidateStocks` | app.py:28-30 | The loop's result is the selected sectors' member lists concatenated in selection order. Its length is the sum of those lists' lengths. |
| `Universe.MembersContain` | app.py:28-30 | A symbol is a candidate exactly when some selected sector lists it. |
| `Universe.DefaultUniverse` | app.py:13-30 | With all four sectors selected (the default) there are 20 candidates, from AAPL to MS. |
| `Validation.ValidateWeights` | app.py:59-63 | Weights are accepted exactly when their count matches the selected stocks and they sum to exactly 1, and they are passed on unchanged. A count mismatch is reported whatever the sum. The sum error arises only when the count matches. |
| `Validation.HalfAndFortyPercentRejected` | app.py:59-63 | [0.5, 0.4] for two stocks fails the sum check. [0.5, 0.5] passes. [0.5, 0.5] for three stocks fails the count check. |
| `Returns.DailyReturns` | app.py:49 | The return table is well formed: ascending dates, one value per column in every row. It keeps the price table's columns in their order. |
| `Returns.ReturnRowOrigin` | app.py:49 | Each return row belongs to a price date t after the first. Each cell is price[t] / price[t-1] - 1 of the (filled) prices, and both of those rows are complete. |
| `Returns.RowKeptIffComplete` | app.py:49 | A price date after the first keeps its return row exactly when none of the prices it divides is missing. A row with any missing value is dropped whole. |
| `Returns.ReturnRowCount` | app.py:49 | With at least one column there are at most (price rows - 1) return rows. |
| `Returns.PadAgreesWithoutGaps` | app.py:49 | On a price table without gaps, forward filling and no filling give the same returns. |
| `Returns.FillForwardAt` | app.py:49 | Forward filling keeps every present price and repeats the value above where one is missing. |
| `Returns.FillForward` | app.py:49 | Forward filling keeps the table's shape and every present price. Starting from a complete row, every filled row is complete. |
| `Returns.PctChange` | app.py:49 | The first row has no returns. A later cell has a return exactly when that column's price is present on both dates, and the return is price[t] / price[t-1] - 1. |
| `Returns.DropIncomplete` | app.py:49 | `dropna` gives a well-formed table with the same columns and no more rows. The date of every complete row is kept. |
| `Metrics.ExpectedReturns` | app.py:65 | One annualised mean per column. The vector is the column totals scaled by 252 / (number of rows). |
| `Metrics.PortfolioReturn` | app.py:68 | The weighted expected return equals 252 times the mean of the daily portfolio returns. |
| `Metrics.PortfolioReturns` | app.py:77 | One portfolio return per row, the row's dot product with the weights. Their total is the weighted total of the columns. |
| `Metrics.AnnualisedLinearity` | app.py:65-68 | The weighted annualised column means equal 252 times the mean of the daily portfolio returns R·w: w · (252·mean(R[:,s])) = 252·mean(R·w). |
| `Metrics.WeightedColumnSums` | app.py:77 | Weighting the column totals gives the total of the row-wise weighted returns. |
| `Metrics.Downside` | app.py:81 | The downside series holds only strictly negative returns, contains every negative return, and is no longer than the input. |
| `Metrics.Losses` | app.py:81 | The mask `portfolio_returns < 0` selects ascending positions, each of a strictly negative return, and includes every such position. |
| `Metrics.DownsideExact` | app.py:81 | The downside series takes ascending positions, each a strictly negative return, and misses none. So it is the order-preserving subsequence of the losses. |
| `Metrics.Percentile` | app.py:78 | For any q in [0, 100], numpy's linear percentile lies between the sample's minimum and maximum. |
| `Metrics.ValueAtRisk` | app.py:78 | VaR_95, the 5th percentile, lies between the smallest and the largest portfolio return. |
| `Metrics.InterpolatedWithinRange` | app.py:78 | In an ordered sample, linear interpolation at any position in [0, n-1] lies between the first and the last sample. |
| `Metrics.TwoStockReturns` | app.py:77 | Returns (1%,2%), (-1%,1%), (2%,-2%) at weights (0.5, 0.5) give portfolio returns 0.015, 0 and 0. |
| `Metrics.TwoStockValueAtRisk` | app.py:78 | The 5th percentile of those three portfolio returns is exactly 0. |
| `Sorting.SortBySorted` | app.py:183 | The sort orders by its key. The sort function's own contract makes it a permutation of its input, of the same length. |
| `Frames.Positions` | app.py:81 | Boolean-mask selection picks ascending positions, exactly those where the mask is true. |
| `Cumulative.CumProdRecurrence` | app.py:120-121 | The cumulative series has the returns' length. cum[0] = 1 + r[0] and cum[t] = cum[t-1]·(1 + r[t]). |
| `Cumulative.CumProd` | app.py:120-121 | The cumulative series has the returns' length, and cum[t] is the product of (1 + r[i]) over i ≤ t. |
| `Cumulative.TotalReturn` | app.py:180 | The last cumulative value minus one is ∏(1 + r) − 1. |
| `Benchmark.InnerJoinExact` | app.py:98 | The joined index holds exactly the dates present in both tables, ascending. Each joined row is the two rows for that date side by side. |
| `Benchmark.InnerJoin` | app.py:98 | The join is a well-formed table whose columns are the stock columns followed by the benchmark's. A date is in it exactly when both tables have it. |
| `Benchmark.CompareBenchmark` | app.py:93-121 | There is no comparison exactly when the benchmark table is empty. Otherwise the aligned table is well formed, with the stock columns plus "Benchmark". Portfolio, benchmark and both cumulative series have one entry per common date, and the cumulative series are the running products of their returns. |
| `Benchmark.ComparisonAligned` | app.py:98-103 | The aligned dates are exactly the common dates. On each, the recomputed portfolio return equals that date's daily portfolio return with the same weights, and the benchmark column holds the benchmark's return. |
| `Allocation.SectorAllocation` | app.py:161-165 | There is one entry per selected sector. Each is the left-to-right sum of the weights of the selected stocks that sector lists. |
| `Allocation.AllocationSumsToWeights` | app.py:161-165 | If every selected stock lies in exactly one selected sector, the allocations add up to the stocks' total weight. |
| `Allocation.MapTotalIsTotalAllocation` | app.py:161-165 | For a map holding each selected sector's summed weight, adding its entries in sector order gives the sector-by-sector total of the allocations. |
| `Allocation.AllocationMapSumsToWeights` | app.py:161-168 | For the map the allocation loop returns, with each selected stock in exactly one selected sector, the pie's values add up to the stocks' total weight. |
| `Allocation.TotalAllocationStep` | app.py:163-164 | One more selected stock adds its weight once for each selected sector listing it. |
| `Allocation.CandidatesHitOnce` | app.py:28-30 | With disjoint sectors selected at most once, each candidate stock lies in exactly one selected sector. |
| `Allocation.StocksDisjoint` | app.py:13-18 | The built-in table lists every ticker under one sector only. |
| `Performers.Performances` | app.py:180 | One figure per stock, in column order. Each is ∏(1 + r) − 1 over its column, labelled by its symbol. |
| `Performers.Ranked` | app.py:183 | The ranking is a permutation of the performances, from the highest total return to the lowest. |
| `Performers.HeadTail` | app.py:187-192 | The top table is the ranking's first min(3, n) entries and the bottom table its last min(3, n), in ranking order. |
| `Performers.TopDominates` | app.py:187 | Any stock that did strictly better than the k-th top entry is listed above it. |
| `Performers.BottomDominated` | app.py:192 | Any stock that did strictly worse than the k-th bottom entry is listed below it. |
| `Performers.TopBottom` | app.py:180-193 | Both tables hold min(3, n) of the stocks' performances (as a sub-multiset), each in non-increasing total return. No stock left out of the top table did better than any of its entries, and no stock left out of the bottom table did worse than any of its entries. |
| `Performers.TopBottomOverlap` | app.py:183-192 | For 0 < n < 6 the best bottom entry is also a top entry (no deduplication). For n ≤ 3 both tables are the whole ranking. For n ≥ 6, top + middle + bottom is the ranking. |
| `Analytics.PortfolioMetrics` | app.py:64-81 | portfolio_returns has one entry per return row, each the row's dot product with the weights. The portfolio return is 252 times their mean. The downside and VaR are computed from those returns: VaR lies between their minimum and maximum, and the downside holds only losses and every loss. |
| `Analytics.Analyze` | app.py:56-121 | It needs return rows only when the weights are accepted. Metrics are produced exactly when validation accepts. Any error is the validator's error, with the count error first. Accepted metrics do not depend on the benchmark. The benchmark part is the benchmark comparison of the same daily returns and weights, and it is a warning exactly when the benchmark table is empty. |
| `Analytics.SinglePriceDateCountChecked` | app.py:56-62 | One price date (hence no return rows) with two weights for one stock is rejected with the count error; the metrics are never reached. |

## Left out

- Streamlit widgets, text and tables, the `yf.download` calls and all Matplotlib/seaborn
  drawing: these are user interface, network I/O and presentation. The fetched tables are
  parameters.
- Portfolio volatility, Sharpe ratio, downside volatility, Sortino ratio, the correlation
  matrix and the 30-day rolling volatility are not modelled. All of them are defined in terms
  of the variance and need a square root.
- Beta and the Treynor ratio are not modelled. They mix `np.cov` (sample covariance, ddof 1)
  with `np.var` (population variance, ddof 0), so their value depends on library conventions.
- The `except Exception` at app.py:142 is not modelled. It wraps lines 90-140: the benchmark
  download, the join, the beta and Treynor computations and the plot. The model has no
  exceptions in those steps except the download's, which is an input here. An empty benchmark
  table is modelled (`NoBenchmarkData`).
- Parsing the comma-separated weight string and its `ValueError` message are not modelled.
  The model starts from parsed reals.
- The unused `scipy.optimize.minimize` import has no behaviour to model.
- Allocation.SectorAllocation: the allocation and performer block runs even for rejected
  weights. Here it requires at least as many weights as selected stocks, the condition under
  which its generator never indexes past the weights. The `IndexError` the script raises
  otherwise is not modelled.
- Allocation.SectorAllocation: the result is a map, so the insertion order of Python's dict
  (the pie-slice order) is not kept.
- Analytics.PortfolioMetrics: requires at least one return row. With none, pandas' means and
  numpy's percentile give NaN or raise, which has no exact-real counterpart.
- Analytics.Analyze: requires at least one return row when the weights pass validation, for
  the same reason as Analytics.PortfolioMetrics. Rejected weights may come with any price table.
- Performers.TopBottom: requires at least one return row, since `iloc[-1]` has nothing to read
  otherwise.
- Performers.Ranked: ties are ordered stably. pandas' default quicksort does not promise any
  order among equal total returns.
- Frames.Price: prices are positive reals. A zero price, for which pandas produces an infinite
  return, is not modelled.
- Floating-point rounding is not modelled. The exact sum-to-one test at app.py:61 is decided
  over reals, so the model accepts some weights the script rejects. [0.08, 0.57, 0.35] sums to
  exactly 1 over reals, but to 0.9999999999999999 in double precision, so app.py:62 reports it.
  Python's `sum` also rounds differently across versions: from Python 3.12 on it uses
  compensated summation, so whether [0.7, 0.2, 0.1] passes depends on the interpreter. Its
  plain left-to-right sum is 0.9999999999999999.
- The provider's column order (yfinance may order tickers differently from the selection) is
  not modelled. Weights are index-aligned with the price columns.
