# Fund rating analyser — a Dafny model of its indicator engine and rating classifier

The analyser reads a fund's price history (date, net asset value). For every
row it computes a set of technical indicators:

- day-over-day, 20-row and 60-row percent change;
- 20-row volatility and the momentum/volatility ratio;
- RSI(14);
- an expanding percentile rank;
- the year-to-date change;
- the change since 2024-09-30.

It then rates each row from its RSI and ratio with a first-match-wins
decision table. There are eleven outcomes: "数据不足" (insufficient data) or
one of the grades E+, E, E-, E--, C, B, S, A, D, D-. Each outcome has a label,
a description and a colour.

The model is split into one module per component:

- `common.dfy` (`Common`): missing values as `Option<real>`, where `None` is
  the NaN marker. Dates are `Date(year, month, day)` ordered
  lexicographically. Also holds the percent-change formula.
- `rating.dfy` (`Rating`): `calculate_rating`. The cascade is `Classify`,
  whose contract gives each grade as its own rectangle of (RSI, ratio), in
  both directions. The label, description and colour of each grade are in
  `Display`.
- `rsi.dfy` (`Rsi`): `calculate_rsi` as pure sequence functions. The gain/loss
  split turns the missing first delta into 0, so the 14-row means are first
  defined at row 13. The division `gain / loss` follows IEEE: 0/0 is NaN and
  x/0 is +inf.
- `indicators.dfy` (`Indicators`): one definition per row for every column
  that `analyze_data` adds, plus the lemmas about those definitions.
- `engine.dfy` (`Engine`): `analyze_data` as methods with loops, each proved
  equal, row by row, to its definition in `Indicators` or `Rating`.
  `DropMissing` produces the date and price columns, `CountRanks` is the
  counting step inside `PercentileColumn`, `RatingColumns` fills the label,
  description and colour columns together, and each other method fills one
  indicator column. The RSI column is not a loop: it is the sequence function
  `Rsi.CalculateRsi` applied to the prices. `AnalyzeData` chains them and
  returns the whole table.
- `columns.dfy` (`Columns`): the loop that picks the date and price columns
  by keyword. The last matching column wins.

The input is a sequence of `RawRow(date, price)`. `price` is `None` when the
value did not parse. Two things are required of it (`WellFormed`): dates are
in non-decreasing order (the source sorts by date first), and every parsed
price is positive. All arithmetic is over exact `real`s.

Where the textbook definitions of these indicators differ from app.py, the
model follows app.py:

- When the gain and loss means are both 0, RSI is missing (0/0 is NaN). It
  does not saturate to 100.
- The percentile uses the average rank of tied prices, not "share of prices
  less than or equal".
- A missing volatility gives a missing ratio. Only an exact 0 is guarded.
- Equal dates are allowed. The order is non-decreasing, not strictly
  increasing.

## Model

| member | source | states |
|---|---|---|
| `Common.PercentChange` | app.py:73-77 | `(now/base - 1)*100` inverts to `now == base*(1 + c/100)`; it is positive exactly when the price rose and 0 exactly when it is unchanged |
| `Rating.Classify` | app.py:22-56 | a missing RSI or ratio gives "insufficient data"; otherwise each of the ten grades holds exactly on its band of RSI (< 30, 30..70 inclusive, > 70) and its ratio interval, whose upper ends are closed |
| `Rating.Display` | app.py:28-56 | the label 数据不足 belongs to the insufficient-data outcome only; gray (#808080) is shown exactly for 数据不足 and D, orange (#FFA500) exactly for E- and C |
| `Rating.CalculateRating` | app.py:27-28 | a missing RSI or ratio gives ("数据不足", "数据尚不充分", "#808080") whatever the other value is; present values never do |
| `Rating.BandEdgesAreNormal` | app.py:31-49 | RSI exactly 30 or 70 is rated as in the normal band; RSI 70 with ratio 1.2 is S, not C |
| `Rating.BreakpointsFallLow` | app.py:32-56 | a ratio exactly on a breakpoint takes the lower branch: 0 → E, -0.2 → E-, -0.5 → E-- when oversold; 1.0 → B when overbought; 1.0 → A, 0.5 → D, 0 → D- in the normal band |
| `Rating.DecisionTableExamples` | app.py:31-56 | one sample point inside each of the ten graded cells gets that grade |
| `Rating.LabelIdentifiesGrade` | app.py:28-56 | the label text identifies the grade; the colour does not (#808080 for both 数据不足 and D, #FFA500 for both E- and C) |
| `Rsi.Delta` | app.py:16 | the delta is missing exactly at row 0; elsewhere adding it to the previous price gives the current price |
| `Rsi.Gain` | app.py:17 | the gain is max(delta, 0): never negative, at least the delta, equal to 0 or to the delta, and 0 for the missing delta |
| `Rsi.Loss` | app.py:18 | the loss is max(-delta, 0): never negative, at least minus the delta, equal to 0 or to minus the delta, and 0 for the missing delta |
| `Rsi.Gains` | app.py:16-17 | one gain per row, never negative, 0 at row 0 |
| `Rsi.Losses` | app.py:16-18 | one loss per row, never negative, 0 at row 0 |
| `Rsi.RollingMean` | app.py:17-18 | the 14-row mean is missing exactly before row 13 and is non-negative |
| `Rsi.Divide` | app.py:19 | IEEE division of non-negative values: NaN exactly for 0/0, +inf exactly for x/0 with x ≠ 0, otherwise a non-negative quotient q with q·b = a |
| `Rsi.RsiFromMeans` | app.py:19-20 | `100 - 100/(1 + g/l)` is missing exactly when both means are 0, is 100 when only the loss mean is 0, and 0 when only the gain mean is 0 |
| `Rsi.RsiClosedForm` | app.py:19-20 | `100 - 100/(1 + g/l)` under IEEE division is missing exactly when g + l = 0 and equals 100·g/(g+l) otherwise |
| `Rsi.CalculateRsi` | app.py:14-20 | one RSI value per row |
| `Rsi.RsiAt` | app.py:14-20 | RSI is missing before row 13; from row 13 on it is missing when G + L = 0 and 100·G/(G+L) otherwise, with G, L the window means |
| `Rsi.RsiBounds` | app.py:19-20 | a present RSI lies in [0, 100] and is 100 exactly when the loss mean is 0 |
| `Rsi.GainsMinusLosses` | app.py:16-18 | over any run of rows, summed gains minus summed losses is the price difference across the run |
| `Rsi.RsiMidline` | app.py:14-20 | a present RSI is above 50 exactly when the price rose over the 14-row window, and equals 50 exactly when the price is unchanged |
| `Indicators.Retained` | app.py:64 | dropping rows without a price never lengthens the data, and every kept row is an input row with a present price |
| `Indicators.RetainedAppend` | app.py:64 | the filter works row by row and keeps input order: it distributes over concatenation |
| `Indicators.RetainedAllPresent` | app.py:64 | when every price parsed, nothing is dropped and row k is input row k |
| `Indicators.RetainedWellFormed` | app.py:61-64 | for input satisfying `WellFormed` (dates sorted, parsed prices positive), the kept rows stay in date order and their prices are positive |
| `Indicators.Change` | app.py:73-77 | the n-row change is missing exactly on rows i < n (row 0 only for the daily change); otherwise `p[i] == p[i-n]*(1 + c/100)`, and it is positive exactly when the price rose |
| `Indicators.DailyReturn` | app.py:80 | the daily return r of row k satisfies p[k] = p[k-1]·(1 + r), exceeds -1, and is positive exactly when the price rose |
| `Indicators.DailyReturns` | app.py:80 | the window of daily returns has one entry per row of the window |
| `Indicators.Volatility` | app.py:80-81 | the 20-row volatility is missing exactly on rows 0..19 |
| `Indicators.Ratio` | app.py:84-86 | volatility exactly 0 gives ratio 0 whatever the momentum; missing volatility gives a missing ratio; otherwise the ratio is present exactly when the 20-row change is, and ratio × volatility = 20-row change |
| `Indicators.RatioFirstDefinedAt20` | app.py:76-86 | the ratio is missing exactly on rows 0..19, so those rows are rated 数据不足 |
| `Indicators.PercentRank` | app.py:92 | the expanding average-rank percentile of row i lies in (0, 100] |
| `Indicators.CountsPartition` | app.py:92 | below + equal counts never exceed the window; all entries are below x exactly when the below count is the window size |
| `Indicators.PercentRankPrefix` | app.py:92 | the rank at row i depends only on rows 0..i: rows appended later never change it |
| `Indicators.RankShare` | app.py:92 | with b earlier rows below and e earlier rows equal, the average-rank share 100·(b + (e + 2)/2)/(i + 1) lies in (0, 100] and is 100 exactly when all i earlier rows are below |
| `Indicators.PercentRankRange` | app.py:92 | the rank lies in (0, 100], is 100 exactly when p[i] is above every earlier price, and is 100 at row 0 |
| `Indicators.FirstOfYear` | app.py:95-96 | returns the first index from k whose date lies in the given year, or the length when there is none |
| `Indicators.YearStart` | app.py:95-99 | a row's YTD anchor is the first row, in row order, with the same calendar year |
| `Indicators.Ytd` | app.py:100 | the YTD change is never missing and is exactly 0 on the first row of each year |
| `Indicators.YearStartStep` | app.py:96-99 | in date order the anchor moves exactly where the previous row lies in another year, and otherwise stays the previous row's anchor |
| `Indicators.YearContiguous` | app.py:95-99 | every row between a year's first row and row i lies in that year and has the same anchor |
| `Indicators.YearStartShared` | app.py:95-100 | all rows of one calendar year share one anchor row, whose YTD change is 0 |
| `Indicators.FirstOnOrAfter` | app.py:105-107 | returns the first index dated on or after the target, or `None` exactly when no date is |
| `Indicators.SinceAnchor` | app.py:104-113 | with no date on or after 2024-09-30 the value is missing; otherwise, with k the first such row, it is missing exactly when i < k and else is the percent change c with p[i] = p[k]·(1 + c/100) |
| `Indicators.SinceAnchorShape` | app.py:104-113 | with no date on or after 2024-09-30 every value is missing; otherwise, with k the first such row, rows before k are missing, row k is 0, and each row i ≥ k is the change from p[k] |
| `Indicators.SinceAnchorPresentIff` | app.py:105-111 | in date order the value is present exactly on the rows dated on or after 2024-09-30 |
| `Engine.DropMissing` | app.py:63-67 | the date and price columns are exactly those of the rows whose price parsed, in input order |
| `Engine.ChangeColumn` | app.py:73-77 | one entry per row, each the n-row change of that row |
| `Engine.VolatilityColumn` | app.py:80-81 | one entry per row, each the volatility of that row's 20-row window |
| `Engine.RatioColumn` | app.py:84-86 | the element-wise guarded ratio, one entry per row |
| `Engine.CountRanks` | app.py:92 | counts the entries below and equal to x |
| `Engine.PercentileColumn` | app.py:92 | one entry per row, each the expanding average-rank percentile of that row |
| `Engine.YtdColumn` | app.py:95-101 | marking each year's first row, setting the anchor there and carrying it forward gives each row its YTD change from the first row of its own year |
| `Engine.SinceAnchorColumn` | app.py:103-113 | the search for the first row on or after 2024-09-30, the NaN series filled from that row on, and the division give each row's change since the anchor |
| `Engine.RatingColumns` | app.py:115-119 | label, description and colour lists of the same length as the rows, each row rated from its own RSI and ratio |
| `Engine.AnalyzeData` | app.py:58-121 | the output has one row per input row whose price parsed, in date order, with every column of that length; each column equals its per-row definition, and every row carries its own rating |
| `Columns.Lower` | app.py:203 | lower-casing keeps the length, changes exactly the ASCII capitals, and maps each capital to its small letter (code point + 32) |
| `Columns.ContainsAny` | app.py:204-206 | reports whether the name contains one of the keywords |
| `Columns.DetectColumns` | app.py:200-211 | each role gets the last column whose lower-cased name contains one of its keywords, or none when no column does |

## Left out

- The page layout, sidebar, rating card, metrics and history table (app.py:10, app.py:162-247): presentation only.
- `plot_chart` (app.py:123-158): chart rendering.
- Reading the upload with `read_csv`/`read_excel` (app.py:195-198), the error message and stop when a column is not found (app.py:209-211), and the Excel export (app.py:249-263): I/O.
- Date parsing, numeric coercion and the sort by date (app.py:61-63): library calls. Their results are the input here. `WellFormed` requires the dates to be in order and parsed prices to be positive. A price that did not parse is `None`.
- Indicators.Volatility: the value of the rolling sample standard deviation (app.py:81) is the parameter `sampleStd`. It needs a square root and floating-point variance. The model covers only which rows have a complete 20-row window of daily returns, and which returns go into each window.
- Floating point: every column is computed over exact reals. The only IEEE behaviour kept is the NaN/inf case split that decides whether a value is missing: the 0/0 and x/0 cases of `gain / loss`, and the volatility guard. Rounding to 2 decimals (app.py:92) and to 4 decimals on export (app.py:252) is left out, and so is the rounding error of pandas' running-sum rolling mean.
- Columns.Lower: `str.lower` is modelled only for the ASCII letters A-Z. The keywords need nothing more. Lower-casing of other scripts is not modelled.
- An input where no price parses: the model returns an empty table. What pandas does when it rates the rows of an empty frame is not modelled.
