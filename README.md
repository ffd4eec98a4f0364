# Quote-analysis kernel of the weekly arbitrage reports

VaporFund's weekly reports load a table of DEX quotes. Each row holds a token
symbol, an exchange (KyberSwap or Universal Assets), a BUY/SELL side, a price
per token and an output amount. The scripts turn that table into Markdown.
This project models the computations behind those reports and proves what
they promise:

- **Arbitrage detection** (`save_arbitrage_opportunities` and the same loop in
  the summary script).
  - One row per token quoted on both sides.
  - The row pairs the lowest SELL price (where one buys) with the highest BUY
    price (where one sells), each with its exchange.
  - The spread is a percentage of the buy price.
  - Rows are ranked by spread, highest first, and numbered in a table.
- **Correlation rows and their labels.**
  - Only tokens with more than two quotes get a row.
  - Rows follow the order of first appearance.
  - Each coefficient gets one of six labels, or a strength word and a direction
    word in the per-token report.
- **Price-range histogram.** Five masks over the price, which split the table.
- **Inter-exchange spread.** Per token, the mean price on KyberSwap against the
  mean price on Universal Assets, for the tokens quoted on both.
- **Report bookkeeping.**
  - Which tokens the driver loop keeps.
  - The index of reports.
  - The file a report is saved under, and the index links that point to it.

Modules:

- `Quotes` (quotes.dfy): the table, its row selections, `unique()`, and the
  shape shared by every per-token loop.
  - `CollectRows` is that loop: a method that appends the row the body yields
    for each token.
  - `Present` is the function specifying the loop.
  - `PresentAt` gives the positions of the kept rows.
- `Arbitrage` (arbitrage.dfy), `Correlation` (correlation.dfy), `PriceRanges`
  (price_ranges.dfy), `ExchangeSpread` (exchange_spread.dfy) and `Reports`
  (reports.dfy) follow the parts above.
- `Scenarios` (scenarios.dfy) holds worked examples on small tables of one to
  three rows.

Modelling choices:

- **Prices are `real`.** Comparisons, minimum and maximum, means and division
  are exact.
- **Prices are positive (`PositivePrices`).** The dataset is the view
  `v_latest_quotes where price_per_token != 0`, as documented in
  md_summary.py:30. That view rules out zero prices. That no price is negative
  is an assumption of the model. The arbitrage and spread operations divide
  by prices.
- **NaN coefficients are modelled.** A coefficient is `Num(v)` or `NaN`, because
  numpy returns NaN for a zero-variance column. Every comparison with NaN is
  false, so the code labels NaN "Very strong negative correlation" and calls it
  "weak" and "negative". The model follows the code.
- **No two-sided token means a KeyError.** `pd.DataFrame([])` has no
  `spread_percent` column, so `sort_values('spread_percent')` raises KeyError.
  The model returns `KeyError("spread_percent")` in that case, as the code
  does.
- **Ties are not ordered.** `sort_values` uses pandas' default quicksort, which
  is not stable. The ranking is therefore specified as sorted by spread, one row
  per token, each row the token's opportunity, and every two-sided token
  present. The order among equal spreads is left open. `SortBySpread` is one
  such sort.
- **`idxmax`/`idxmin` return the first row holding the extreme.**
  `IdxMax`/`IdxMin` state exactly that.

## Model

| member | source | states |
|---|---|---|
| Quotes.Select | md_summary.py:546-548 | a boolean-mask selection holds exactly the rows that pass the mask and is no longer than the table |
| Quotes.SelectCount | md_summary.py:546-548 | a selection keeps every copy of a passing row, as many as the table holds, and no copy of any other row |
| Quotes.SelectAppend | md_summary.py:546-548 | a selection keeps table order: selecting from `a + b` is selecting from `a`, then from `b` |
| Quotes.TokenRows | md_summary.py:546 | `df[df['symbol'] == token]` holds exactly the token's rows, each as many times as the table does (so its length is the token's quote count); it is the order-keeping `Select` on the symbol |
| Quotes.QuoteTypeRows | md_summary.py:547-548 | the BUY (or SELL) selection holds exactly the rows of that side, each as many times as the input does; it is the order-keeping `Select` on the side, so `idxmax`/`idxmin` see the rows in table order |
| Quotes.ExchangeRows | md_summary.py:804-805 | the exchange selection holds exactly the rows quoted on that exchange, each as many times as the input does, so its length is the divisor of the mean |
| Quotes.Prices | md_summary.py:648 | the price column has one entry per row, the row's price |
| Quotes.Amounts | md_summary.py:648 | the output-amount column has one entry per row, the row's amount |
| Quotes.FirstIndex | md_summary.py:543 | the first position of a token: below the table length exactly when the token occurs, holding the token, with no earlier row of it |
| Quotes.FirstIndexAppend | md_summary.py:543 | appending a row adds only its symbol, moves no token's first position, and a new symbol first appears at the end |
| Quotes.Tokens | md_summary.py:543 | `unique()` lists a symbol exactly when some row has it |
| Quotes.TokensInFirstAppearanceOrder | md_summary.py:543 | `unique()` lists the symbols by strictly increasing first position, so each one once |
| Quotes.Present | md_summary.py:542-564 | a loop that appends only for some elements keeps no more rows than it visits |
| Quotes.PresentMembers | md_summary.py:542-564 | a row is collected exactly when some pass of the loop yields it |
| Quotes.PresentAt | md_summary.py:542-564 | the k-th collected row is the result of the k-th yielding pass; those passes are in loop order and none is skipped |
| Quotes.Results | md_summary.py:545 | the loop body's result for each token, in token order |
| Quotes.CollectRows | md_summary.py:542-564 | the per-token loop returns exactly the present results, in order |
| Arbitrage.IdxMax | md_summary.py:551 | `idxmax` picks a row with the highest price, and no earlier row has that price |
| Arbitrage.IdxMin | md_summary.py:552 | `idxmin` picks a row with the lowest price, and no earlier row has that price |
| Arbitrage.SpreadPercent | md_summary.py:554-555 | the spread times the buy price is (sell - buy) * 100; with a positive buy price it is positive, zero or negative exactly as sell is above, equal to or below buy |
| Arbitrage.OpportunityFor | md_summary.py:546-564 | a token gets a row exactly when it has a BUY and a SELL quote; the buy side is a lowest SELL price and its exchange, the sell side a highest BUY price and its exchange, and the spread is computed from them |
| Arbitrage.InsertPermutes | md_summary.py:566 | inserting into the ranking adds exactly one row |
| Arbitrage.InsertMembers | md_summary.py:566 | after an insertion the ranking holds the old rows and the new one, nothing else |
| Arbitrage.InsertSorted | md_summary.py:566 | inserting into a ranking sorted by descending spread keeps it sorted |
| Arbitrage.InsertDistinct | md_summary.py:566 | inserting a row for a new token keeps one row per token |
| Arbitrage.SortBySpread | md_summary.py:566 | one ranking `sort_values('spread_percent', ascending=False)` may return, with as many rows as collected; its order and contents are stated by SortSorted, SortPermutes and SortDistinct |
| Arbitrage.SortPermutes | md_summary.py:566 | ranking is a permutation of the collected rows |
| Arbitrage.SortSorted | md_summary.py:566 | ranking orders rows by non-increasing `spread_percent` |
| Arbitrage.SortDistinct | md_summary.py:566 | ranking rows with one row per token keeps one row per token |
| Arbitrage.PerToken | md_summary.py:545-564 | the loop body's result for each token, one per token |
| Arbitrage.ArbitrageDataSound | md_summary.py:550-564 | every collected row is its token's opportunity |
| Arbitrage.ArbitrageDataComplete | md_summary.py:550 | every two-sided token has its opportunity collected, and every collected row's token is two-sided: one-sided tokens are skipped, not given a zero row |
| Arbitrage.ArbitrageDataDistinct | md_summary.py:543-550 | at most one row per symbol |
| Arbitrage.RankingOfCollected | md_summary.py:566 | nothing is collected exactly when no token is two-sided; otherwise the ranking is sorted, one row per token, sound and complete |
| Arbitrage.ArbitrageOpportunities | md_summary.py:540-566 | KeyError on `spread_percent` exactly when no token is two-sided; otherwise the rows sorted by descending spread, one per two-sided token, each that token's opportunity |
| Arbitrage.RankTable | md_summary.py:614-615 | one table line per ranked row, numbered 1..n in ranking order, copying its cells; spreads stay non-increasing down the table |
| Correlation.CorrelationFor | md_summary.py:646-649 | a correlation row is about the token it was computed for |
| Correlation.CorrelationResults | md_summary.py:645-649 | the loop body's result for each token, in token order |
| Correlation.CorrelationRowsSound | md_summary.py:647-649 | every row belongs to a token with more than two quotes and carries the coefficient of that token's own price and amount columns |
| Correlation.CorrelationRowsComplete | md_summary.py:647 | every token with more than two quotes has a row |
| Correlation.CorrelationRowsOrdered | md_summary.py:643-649 | rows follow the first appearance of their tokens, so one row per token |
| Correlation.CorrelationAnalysis | summary.py:139-144 | the correlation loop returns exactly the tokens with more than two quotes, in first-appearance order, each with its own coefficient |
| Correlation.Interpret | md_summary.py:716-727 | the ladder's six labels are the intervals (0.9, inf), (0.5, 0.9], (0, 0.5], (-0.5, 0], (-0.9, -0.5] and (-inf, -0.9]; NaN gets the bottom label |
| Correlation.InterpretMonotone | md_summary.py:716-727 | a larger coefficient never gets a lower label |
| Correlation.InterpretZero | md_summary.py:720-723 | a coefficient of exactly 0 is labelled "Negative correlation" |
| Correlation.CorrelationTable | md_summary.py:715-729 | one table line per correlation row, in order, with the row's label |
| PriceRanges.RangeOf | md_summary.py:83-89 | the five masks are disjoint and cover every price: each price is in exactly one range |
| PriceRanges.InRange | md_summary.py:84-88 | the five masks; a price in a range is below $1 exactly in the two lowest ranges and at least $100 exactly in the two highest |
| PriceRanges.CountInRange | md_summary.py:84 | a mask selects no more rows than the table has |
| PriceRanges.CountsPartition | summary.py:49-55 | the five counts add up to the number of rows |
| PriceRanges.PriceRangeCounts | md_summary.py:83-89 | the `price_ranges` counts are the five mask counts and total `len(df)` |
| ExchangeSpread.Mean | md_summary.py:804 | `mean()` is undefined (NaN) exactly for an empty column, and otherwise times the count gives the sum |
| ExchangeSpread.SumBounds | md_summary.py:804 | a sum of values within bounds lies within count times the bounds |
| ExchangeSpread.SumPositive | md_summary.py:804 | a non-empty sum of positive prices is positive |
| ExchangeSpread.MeanBounds | md_summary.py:804 | the mean lies between any bounds of the values |
| ExchangeSpread.MeanPositive | md_summary.py:804 | the mean of positive prices is positive |
| ExchangeSpread.MeanPrice | md_summary.py:804-807 | an exchange's mean price for a token is the mean of the prices of every row of the token on that exchange, repetitions included; it is defined (not NaN) exactly when the token is quoted there, and is then positive |
| ExchangeSpread.MeanPriceBounds | md_summary.py:804-805 | the mean price lies between any bounds of the token's prices on that exchange |
| ExchangeSpread.MeanPriceOfEqualPrices | md_summary.py:804-805 | when all the token's quotes on the exchange share one price, the mean is that price |
| ExchangeSpread.InterExchangeSpread | md_summary.py:808 | the spread is the percentage by which the larger mean exceeds the smaller one; it is never negative and is zero exactly when the means are equal |
| ExchangeSpread.InterExchangeSpreadSymmetric | md_summary.py:808 | swapping KyberSwap and Universal Assets gives the same spread |
| ExchangeSpread.SpreadFor | md_summary.py:803-809 | a spread row is about the token it was computed for |
| ExchangeSpread.SpreadResults | md_summary.py:802-809 | the loop body's result for each token, in token order |
| ExchangeSpread.SpreadRowsSound | md_summary.py:807-809 | every row is about a token quoted on both exchanges and carries the non-negative spread of its two means |
| ExchangeSpread.SpreadRowsComplete | md_summary.py:807 | every token quoted on both exchanges has a row |
| ExchangeSpread.SpreadRowsOrdered | md_summary.py:800-809 | rows follow the first appearance of their tokens, so one row per token |
| ExchangeSpread.ExchangeSpreads | summary.py:230-238 | the spread loop returns exactly the tokens quoted on both exchanges, in first-appearance order, each with its non-negative spread |
| Reports.Heading | md.py:291 | "Strong" when abs(c) > 0.7, "Moderate" when 0.3 < abs(c) <= 0.7, "Weak" otherwise (NaN included) |
| Reports.StrengthWord | md.py:293 | "strong", "moderate" or "weak" on the same intervals of abs(c) |
| Reports.DirectionWord | md.py:293 | "positive" exactly when c > 0; zero and NaN read "negative" |
| Reports.HeadingAgreesWithSentence | md.py:291-293 | the heading and the sentence always name the same strength |
| Reports.StrengthIgnoresSign | md.py:291-293 | c and -c get the same heading and strength word |
| Reports.SaveReportPath | md.py:302-312 | the report is saved as `reports/<symbol>_analysis_report.md` whatever the date, never under the dated path built first |
| Reports.Resolve | md.py:332 | resolving `./x` from a folder gives the folder, a separator, then `x` without its `./` |
| Reports.ReportLinkResolves | md.py:331-349 | each report link of the index, resolved from the reports folder the index is written to, is the path the report is saved under |
| Reports.IndexLine | md.py:332-334 | an index row starts with the token in bold, follows it with the report link, and ends the table row |
| Reports.GenerateIndex | md.py:331-341 | one index line per processed token, in list order; both summary counts equal the number of tokens |
| Reports.StepResults | md.py:378-411 | a pass of the driver loop yields its symbol exactly when the token's steps completed |
| Reports.ProcessedTokensSpec | md.py:376-411 | `processed_tokens` holds exactly the symbols whose steps completed, in input order |
| Reports.ProcessTokens | md.py:376-415 | the driver keeps the completed tokens in order, and writes an index, with one line per kept token, exactly when it kept some |
| Scenarios.LowestSellAgainstHighestBuy | md_summary.py:546-564 | SELL quotes 100 and 90 against a BUY quote of 120 give buy price 90, sell price 120 and spread 100/3 percent, with their exchanges |
| Scenarios.OneSidedTokenSkipped | md_summary.py:550 | a token with only a BUY quote gets no row, and a table with only that token collects nothing |
| Scenarios.TwoQuotesNoCorrelation | md_summary.py:647 | a token with two quotes at one price gets a zero-spread opportunity but no correlation row |

## Left out

- Plotting, chart colours, `savefig` and `show`, the PDF scripts, and index.js.
  These are rendering with no stateable behaviour.
- Database access, CSV reading and writing, folder creation, file writes and
  the temp-file cleanup. Report writing is modelled by the path it would write
  to.
- The clock. `SaveReportPath` takes the date as a parameter. The index
  timestamp is not modelled.
- The per-token download, chart, trend-line and correlation steps of the
  driver loop. They are given as one `StepOutcome` per token.
- `np.corrcoef` and `Series.corr`. The coefficient is an opaque function
  parameter `pearson`.
- Least-squares trend lines, `describe()` summaries, the wei scaling and the
  risk proxy.
- Float formatting (`:.2f`, `:.4f`, `:.8f`). Table lines carry the numbers,
  not their rendered text. The Markdown headers, summary prose and bar labels
  are fixed text.
- Floating-point rounding. Prices and spreads are exact reals.
- Zero and negative prices. The operations require positive prices, so the
  IEEE infinity a zero divisor would give is not modelled.
- NaN prices. A NaN price would fall in no price-range mask, so the five
  counts would then sum to less than the number of rows.
- `PriceRanges.PriceRangeCounts`: the dictionary keys (the bar labels) are
  not modelled, only the five counts in order.
- `Arbitrage.ArbitrageOpportunities`: does not fix the order among rows with
  equal spreads, because pandas' default sort is not stable and promises
  none.
- `Arbitrage.OpportunityFor`: says the exchanges are ones quoting the extreme
  prices, not which one when several tie. `IdxMax`/`IdxMin` state that the
  first such row is taken.
- The KeyError that `corr_df['correlation']` and `spread_df['spread']` raise
  in the plotting code when no row was collected (md_summary.py:657 and 812-813).
  It belongs to the plotting code.
- Module-level execution order of md_summary.py. The functions are modelled,
  not the spliced script run.
