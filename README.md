# Trade dashboard core, modelled in Dafny

This project models the computational core of a stock-trading dashboard written in TypeScript and React.

- **Technical-indicator engine.** It turns a series of closing prices, or of OHLCV bars, into the derived series a chart shows:
  - SMA and EMA;
  - RSI with Wilder smoothing;
  - MACD, with its signal line and histogram;
  - Bollinger bands;
  - ATR;
  - the Stochastic %K and %D;
  - a snapshot of the newest value of each (`getCurrentIndicators`).
- **Enhanced table.** The search filter, sort and header-click logic.
- **Watchlist hook.** A list of unique, upper-cased symbols with a persisted copy.
- **Portfolio arithmetic.** The price statistics and the derived position fields of the mock-data module.
- **Indicator card labels.** The RSI, MACD and trend classifiers.

Prices are Dafny `real`s, which are exact rationals. Every property below is therefore an algebraic fact about the recurrences the dashboard computes, not a statement about floating point.

Modules and files:

- `Common.dfy` (module `Common`): `Option`, `Array.prototype.filter` with its lemmas, ASCII `toLowerCase`/`toUpperCase`, and `includes`.
- `Indicators.dfy` (module `Indicators`): the indicator engine.
  - Each `Calculate…` method builds its output the way the source does, by pushing onto a list inside a loop. The RSI loop also reassigns the running averages on every step.
  - Each method is proved equal to a ghost specification function: `SmaSpec`, `EmaSpec`, `RsiSpec`, `MacdSpec`, `KSpec`, `TrueRanges`.
  - The indicator properties are lemmas about those functions.
- `Table.dfy` (module `Table`): the table.
  - The search filter is a function.
  - The comparator is a function, written exactly as in the source.
  - The sort is an in-place method on an array.
  - The component state (`sortKey`, `sortDirection`, `searchQuery`) lives in the class `EnhancedTable`.
- `Watchlist.dfy` (module `Watchlist`): list functions with their lemmas, and the class `WatchlistStore`. Its methods replace the list and the persisted copy.
- `MockData.dfy` (module `MockData`): `calculatePriceStats` and the derived portfolio fields.
- `IndicatorStatus.dfy` (module `IndicatorStatus`): the three card classifiers. Lemmas connect them to the snapshot of the indicator engine.

Some points follow the code rather than the usual textbook definitions:

- The RSI series has `n − period − 1` values, not `n − period`. Changes are taken between neighbours, which gives `n − 1` of them. Output starts at change index `period`, after the first smoothing step. So exactly `period + 1` prices pass the length guard and still give an empty series.
- With no average loss, the RSI uses `rs = 100`. The value is then `100 − 100/101`, never 100. A flat series therefore reads "Overbought" on the card (`IndicatorStatus.ConstantSeriesStatus`).

## Model

| member | source | states |
|---|---|---|
| Common.Upper | lib/hooks/use-watchlist.ts:27 | upper-casing keeps the length and leaves no lower-case ASCII letter |
| Common.UpperIdempotent | lib/hooks/use-watchlist.ts:27 | upper-casing an already upper-cased symbol changes nothing |
| Common.Lower | components/enhanced-table.tsx:38 | lower-casing keeps the length and leaves no upper-case ASCII letter |
| Common.Includes | components/enhanced-table.tsx:38 | `includes` is true exactly when the needle occurs at some position of the text |
| Common.Filter | components/enhanced-table.tsx:36 | `Array.prototype.filter`, taking elements from the front; it never yields more elements than it is given (its contents are stated by the next four lemmas) |
| Common.FilterCounts | lib/hooks/use-watchlist.ts:48 | `filter` keeps every occurrence of an element that passes the predicate and none of one that fails it |
| Common.FilterSound | components/enhanced-table.tsx:36-40 | every element `filter` keeps passes the predicate and comes from the input |
| Common.FilterIsSubsequence | components/enhanced-table.tsx:36-40 | `filter` keeps its survivors in their original order |
| Common.FilterAppend | lib/hooks/use-watchlist.ts:48 | filtering a concatenation is the concatenation of the filtered parts |
| Indicators.Last | lib/technical-indicators.ts:207-214 | definition: `arr[arr.length - 1]`, read only from a non-empty series |
| Indicators.Sum | lib/technical-indicators.ts:23 | definition: the fold `reduce((a, b) => a + b, 0)`, which is 0 for an empty list and otherwise the fold of all but the last element plus the last |
| Indicators.SumAtLeast | lib/technical-indicators.ts:23 | a sum of `n` values each at least `lo` is at least `n·lo` |
| Indicators.SumAtMost | lib/technical-indicators.ts:23 | a sum of `n` values each at most `hi` is at most `n·hi` |
| Indicators.SumPositive | lib/technical-indicators.ts:69-70 | a non-empty sum of positive values is positive |
| Indicators.MeanWithin | lib/technical-indicators.ts:23-24 | the sum of `n > 0` values divided by `n` lies within any bounds on the values |
| Indicators.WindowMean | lib/technical-indicators.ts:23-24 | definition: the sum of `prices[j..j+period)` divided by the period |
| Indicators.SmaSpec | lib/technical-indicators.ts:18-27 | the SMA is empty when there are fewer prices than the period, and otherwise has `n − period + 1` values |
| Indicators.CalculateSMA | lib/technical-indicators.ts:18-27 | the loop's output has the length law, its element `j` is the mean of `prices[j..j+period)`, and it equals `SmaSpec` |
| Indicators.SmaWithin | lib/technical-indicators.ts:22-25 | when every price lies in `[lo, hi]`, so does every SMA value |
| Indicators.Smoothing | lib/technical-indicators.ts:35 | the factor `2/(period+1)` lies in `(0, 1]` |
| Indicators.Blend | lib/technical-indicators.ts:44 | definition: `price·k + previous·(1 − k)` |
| Indicators.ConvexAtLeast | lib/technical-indicators.ts:44 | with `k` in `(0, 1]`, blending two values at least `lo` gives a value at least `lo` |
| Indicators.ConvexAtMost | lib/technical-indicators.ts:44 | with `k` in `(0, 1]`, blending two values at most `hi` gives a value at most `hi` |
| Indicators.EmaSpec | lib/technical-indicators.ts:32-49 | the EMA is empty when there are fewer prices than the period, and otherwise has `n − period + 1` values |
| Indicators.CalculateEMA | lib/technical-indicators.ts:32-49 | the loop's output has the length law, starts at the first SMA value, and equals `EmaSpec` |
| Indicators.EmaPrefix | lib/technical-indicators.ts:43-46 | the EMA of a prefix of the prices is a prefix of the EMA |
| Indicators.EmaStartsAtSma | lib/technical-indicators.ts:38-40 | EMA element 0 equals SMA element 0 |
| Indicators.EmaStep | lib/technical-indicators.ts:43-46 | each later EMA value is `price·k + previous·(1 − k)` at the matching price index |
| Indicators.EmaWithin | lib/technical-indicators.ts:32-49 | when every price lies in `[lo, hi]`, so does every EMA value |
| Indicators.ConstantSeriesAverages | lib/technical-indicators.ts:18-49 | a constant series has a constant SMA and a constant EMA, both equal to the constant |
| Indicators.Gain | lib/technical-indicators.ts:64 | a gain is never negative |
| Indicators.Loss | lib/technical-indicators.ts:65 | a loss is never negative |
| Indicators.Gains | lib/technical-indicators.ts:62-66 | there is one change fewer than there are prices |
| Indicators.Losses | lib/technical-indicators.ts:62-66 | there is one change fewer than there are prices |
| Indicators.ChangesAt | lib/technical-indicators.ts:62-66 | change `i` is the gain and the loss of `prices[i+1] − prices[i]` |
| Indicators.ChangesNonNegative | lib/technical-indicators.ts:64-65 | every gain and every loss is at least 0 |
| Indicators.PriceChanges | lib/technical-indicators.ts:62-66 | the loop computes exactly the gains and losses series |
| Indicators.Wilder | lib/technical-indicators.ts:74-75 | definition: one smoothing step `(avg·(period − 1) + x) / period` |
| Indicators.WilderAt | lib/technical-indicators.ts:69-75 | definition: the plain mean of the first `period` values, followed by `j` smoothing steps over the next values |
| Indicators.WilderStepAtLeast | lib/technical-indicators.ts:74-75 | one smoothing step of an average and a value, both at least `lo`, stays at least `lo` |
| Indicators.WilderStepAtMost | lib/technical-indicators.ts:74-75 | one smoothing step of an average and a value, both at most `hi`, stays at most `hi` |
| Indicators.WilderAtLeast | lib/technical-indicators.ts:69-75 | Wilder smoothing of values at least `lo` stays at least `lo` |
| Indicators.WilderAtMost | lib/technical-indicators.ts:69-75 | Wilder smoothing of values at most `hi` stays at most `hi` |
| Indicators.WilderPositive | lib/technical-indicators.ts:69-75 | Wilder smoothing of positive values stays positive |
| Indicators.RsiValue | lib/technical-indicators.ts:77-78 | the value lies in `[0, 100)`; zero average loss gives exactly `100 − 100/101`; zero gain with a positive loss gives 0 |
| Indicators.RsiAt | lib/technical-indicators.ts:73-79 | definition: RSI value `m` is `RsiValue` of the gain and loss averages after `m + 1` smoothing steps |
| Indicators.RsiSpec | lib/technical-indicators.ts:54-83 | the RSI is empty below `period + 1` prices, and otherwise has `n − period − 1` values |
| Indicators.CalculateRSI | lib/technical-indicators.ts:54-83 | the loop's output has that length law, every value lies in `[0, 100)`, and it equals `RsiSpec` |
| Indicators.RsiWithoutLosses | lib/technical-indicators.ts:77 | a series that never falls has every RSI value equal to `100 − 100/101` |
| Indicators.RsiAllLosses | lib/technical-indicators.ts:73-79 | a series that falls at every step has every RSI value equal to 0 |
| Indicators.AlignedDifference | lib/technical-indicators.ts:95-97 | the aligned difference `a[i + offset] − b[i]` has as many values as `b` |
| Indicators.MacdSpec | lib/technical-indicators.ts:88-114 | the MACD line is as long as the slow EMA, and the histogram, the signal and the signal's EMA are equally long |
| Indicators.CalculateMACD | lib/technical-indicators.ts:88-114 | the MACD line has `n − slow + 1` values, or none below `slow` prices; the result equals `MacdSpec`; every offset read is in bounds |
| Indicators.MacdLine | lib/technical-indicators.ts:89-97 | the MACD line has one value per slow-EMA value and equals the fast EMA minus the slow EMA, offset by `slow − fast` |
| Indicators.SubtractAligned | lib/technical-indicators.ts:93-107 | the difference loop reads `a[i + offset]` in bounds and yields `a[i + offset] − b[i]` for every `i` |
| Indicators.MacdLineAt | lib/technical-indicators.ts:94-97 | MACD element `i` is `emaFast[i + slow − fast] − emaSlow[i]` |
| Indicators.MacdHistogramAt | lib/technical-indicators.ts:100-107 | the signal is the EMA of the MACD line, and histogram element `i` is `macd[i + signal − 1] − signal[i]` |
| Indicators.MacdNewestHistogram | lib/technical-indicators.ts:103-107 | the last histogram value is the last MACD value minus the last signal value |
| Indicators.SquaredDeviations | lib/technical-indicators.ts:127 | the sum of squared deviations is never negative |
| Indicators.WindowVariance | lib/technical-indicators.ts:125-127 | the window variance is never negative |
| Indicators.BandWidth | lib/technical-indicators.ts:128-131 | definition: the band half-width `stdDev · sqrt(variance)` of window `j` |
| Indicators.CalculateBollingerBands | lib/technical-indicators.ts:119-139 | the middle band is the SMA; the bands are as long as it; upper and lower are the middle plus and minus `stdDev·sd`; the bands are symmetric; for `stdDev ≥ 0`, `lower ≤ middle ≤ upper` |
| Indicators.BandWidthNonNegative | lib/technical-indicators.ts:128-131 | with a non-negative root and `stdDev ≥ 0`, the band half-width is never negative |
| Indicators.TrueRange | lib/technical-indicators.ts:150-158 | the true range is the largest of the three ranges: at least each of them and equal to one; it is never negative |
| Indicators.TrueRanges | lib/technical-indicators.ts:149-160 | there is one true range fewer than there are bars |
| Indicators.TrueRangesNonNegative | lib/technical-indicators.ts:149-160 | every true range is at least 0 |
| Indicators.CalculateATR | lib/technical-indicators.ts:144-163 | the ATR is empty below `period + 1` bars and otherwise has `n − period` values; every value is at least 0; it is the EMA of the true ranges |
| Indicators.MaxHigh | lib/technical-indicators.ts:173 | the window high is at least every bar's high and is one of them |
| Indicators.MinLow | lib/technical-indicators.ts:174 | the window low is at most every bar's low and is one of them |
| Indicators.Window | lib/technical-indicators.ts:172 | the window slice holds `period` bars |
| Indicators.NonFlatWindows | lib/technical-indicators.ts:173-177 | definition: every window has a high above its low, so the %K denominator is not 0 |
| Indicators.WellFormedBar | lib/technical-indicators.ts:175-177 | definition: a bar whose close lies within its low and high |
| Indicators.StochasticK | lib/technical-indicators.ts:175-177 | when the last bar's close lies within its own low and high, %K lies in `[0, 100]` |
| Indicators.KSpec | lib/technical-indicators.ts:168-179 | %K has `n − period + 1` values, or none below `period` bars |
| Indicators.CalculateStochastic | lib/technical-indicators.ts:168-188 | %K has `max(0, n − period + 1)` values and equals `KSpec`; %D has `max(0, len(%K) − 2)` values and is the 3-period SMA of %K |
| Indicators.StochasticWithin | lib/technical-indicators.ts:171-182 | when every bar has `low ≤ close ≤ high` and no window is flat, every %K and every %D lies in `[0, 100]` |
| Indicators.SnapshotSpec | lib/technical-indicators.ts:193-216 | the snapshot is absent exactly below 50 prices; otherwise it holds the last element of each series |
| Indicators.GetCurrentIndicators | lib/technical-indicators.ts:193-216 | the result is null exactly when there are fewer than 50 prices; every "last element" read is in bounds; the snapshot equals `SnapshotSpec` |
| Indicators.SnapshotMeaning | lib/technical-indicators.ts:198-214 | from 50 prices a snapshot exists; its price is the last price; `sma20`/`sma50` are the means of the last 20/50 prices; `macd = ema12 − ema26`; `histogram = macd − signal`; `0 ≤ rsi < 100` |
| Indicators.ConstantSeriesSnapshot | lib/technical-indicators.ts:193-216 | for a constant series, every average is the constant, MACD, signal and histogram are 0, and the RSI is `100 − 100/101` |
| Table.IsNullish | components/enhanced-table.tsx:50-51 | definition: `value == null` holds for both null and undefined |
| Table.Stringify | components/enhanced-table.tsx:59-60 | definition: `String(value)`: "null", "undefined", or the printed text of any other value |
| Table.KeyOf | components/enhanced-table.tsx:46-47 | definition: `row[key]`, with a missing key read as undefined |
| Table.Matches | components/enhanced-table.tsx:37-39 | a row matches exactly when the lower-cased query occurs at some position in the lower-cased text of one of its values |
| Table.SearchFilter | components/enhanced-table.tsx:35-41 | the result is never longer than the data and holds only rows of the data; when the filter is active it holds only matching rows |
| Table.SearchKeepsAllWhenOff | components/enhanced-table.tsx:35 | an empty query or a non-searchable table filters out nothing |
| Table.SearchFilterSound | components/enhanced-table.tsx:35-41 | the filtered list keeps the original order; every kept row has a value whose lower-cased text contains the lower-cased query; every matching row keeps all its occurrences |
| Table.LexLess | components/enhanced-table.tsx:63-65 | definition: JavaScript `<` on strings, comparing characters from the front; a proper prefix is smaller |
| Table.LexLe | components/enhanced-table.tsx:63-65 | definition: `a <= b` as "not `b < a`" |
| Table.LexLessAsymmetric | components/enhanced-table.tsx:63-65 | no two strings are each less than the other |
| Table.LexLeTotal | components/enhanced-table.tsx:63-65 | any two strings are ordered one way or the other |
| Table.LexLeTransitive | components/enhanced-table.tsx:63-65 | the string order is transitive |
| Table.SortText | components/enhanced-table.tsx:59-60 | the compared text `String(value).toLowerCase()` is as long as the printed text and has no upper-case ASCII letter |
| Table.Compare | components/enhanced-table.tsx:45-67 | a nullish `a` compares after, a nullish `b` before; outside the number branch the comparator answers only ±1, never 0 |
| Table.CompareAgrees | components/enhanced-table.tsx:45-67 | for values of the same kind, not both nullish, `Before(a, b)` holds exactly when the comparator does not put `a` strictly after `b`; so a negative result puts `a` first and a positive one `b` first |
| Table.NumberVsStringDiverges | components/enhanced-table.tsx:59-63 | `5` against `"!"` compares by text, consistently in both orders, so `"!"` comes first; `Before` puts the number first |
| Table.CompareMixedCycle | components/enhanced-table.tsx:54-63 | on a column mixing numbers and strings the comparator is cyclic: `9` is below `10`, `10` below `"5"` and `"5"` below `9` |
| Table.CompareInconsistentOnEqualText | components/enhanced-table.tsx:59-66 | two non-numeric values with the same lower-cased text each compare before the other |
| Table.CompareEqualTextExample | components/enhanced-table.tsx:59-66 | "AAPL" and "aapl" each compare before the other |
| Table.Before | components/enhanced-table.tsx:45-67 | the order the sort uses is reflexive, puts every value before a nullish one, and never puts a nullish value before a non-nullish one (total and transitive by the next two lemmas) |
| Table.BeforeTotal | components/enhanced-table.tsx:45-67 | the sort order relates every pair of cell values |
| Table.BeforeTransitive | components/enhanced-table.tsx:45-67 | the sort order is transitive |
| Table.RowOrder | components/enhanced-table.tsx:45-47 | definition: rows compared by `Before` on their values under the sort key |
| Table.RowOrderIsTotalPreorder | components/enhanced-table.tsx:45-47 | comparing rows by the value under one key is a total preorder |
| Table.SortInPlace | components/enhanced-table.tsx:45 | the in-place sort leaves the array sorted under the order and a permutation of what it held |
| Table.SortedNullsLast | components/enhanced-table.tsx:50-51 | in a sorted list, every row whose key is null or undefined comes after every row with a key, in both directions |
| Table.SortedNumbers | components/enhanced-table.tsx:54-56 | in a sorted list, numeric keys are non-decreasing for ascending and non-increasing for descending |
| Table.SortedStrings | components/enhanced-table.tsx:59-66 | in a sorted list, string keys are in lower-cased text order, ascending or descending with the direction |
| Table.SortedRespectsCompare | components/enhanced-table.tsx:45-67 | in a sorted list, an earlier key never compares strictly after a later key of the same kind (two nullish keys aside) |
| Table.FindColumn | components/enhanced-table.tsx:74 | `find` gives none exactly when no column has the key, and otherwise the first column that has it |
| Table.SortTransition | components/enhanced-table.tsx:73-83 | an unknown or non-sortable key changes nothing; the current key flips the direction; a new sortable key becomes the key with ascending order |
| Table.ToggleTwiceRestores | components/enhanced-table.tsx:77-78 | clicking the current sort column twice restores the direction |
| Table.NewColumnThenToggle | components/enhanced-table.tsx:79-82 | clicking a new sortable column gives ascending order, and a second click gives descending |
| Table.EnhancedTable.constructor | components/enhanced-table.tsx:27-29 | the table starts with no sort key, ascending order and an empty query |
| Table.EnhancedTable.SetSearchQuery | components/enhanced-table.tsx:29 | typing replaces only the query |
| Table.EnhancedTable.HandleSort | components/enhanced-table.tsx:73-83 | a header click moves the sort state exactly as `SortTransition` says and leaves the query alone |
| Table.EnhancedTable.FilteredAndSortedData | components/enhanced-table.tsx:31-71 | the result is a permutation of the filtered rows (same length and multiset); with no sort key it is the filtered list itself; with one it is sorted by that column's order |
| Watchlist.HasSymbol | lib/hooks/use-watchlist.ts:30 | `watchlist.some(...)` is true exactly when some item of the list has the symbol |
| Watchlist.DistinctSymbols | lib/hooks/use-watchlist.ts:30-41 | definition: the invariant that no two items share a symbol |
| Watchlist.DisplayName | lib/hooks/use-watchlist.ts:38 | an absent or empty name falls back to the symbol |
| Watchlist.AddToList | lib/hooks/use-watchlist.ts:26-45 | a symbol already present in upper case gives `false` and the unchanged list; otherwise `true` and the list with one upper-cased item appended |
| Watchlist.RemoveFromList | lib/hooks/use-watchlist.ts:48 | the result has no more items than the list, every one of them comes from the list, and none has the upper-cased symbol |
| Watchlist.RemoveExactly | lib/hooks/use-watchlist.ts:47-49 | removal drops exactly the items with the upper-cased symbol, keeps every other item with its multiplicity, and keeps their order |
| Watchlist.RemoveAbsent | lib/hooks/use-watchlist.ts:48 | removing an absent symbol changes nothing |
| Watchlist.AddThenRemove | lib/hooks/use-watchlist.ts:34-49 | a successful add followed by a remove of the same symbol restores the list |
| Watchlist.AddKeepsDistinct | lib/hooks/use-watchlist.ts:30-41 | adding keeps the symbols distinct |
| Watchlist.RemoveKeepsDistinct | lib/hooks/use-watchlist.ts:48 | removing keeps the symbols distinct |
| Watchlist.AddIsCaseInsensitive | lib/hooks/use-watchlist.ts:27-32 | after adding a symbol, adding it again in any letter case is refused |
| Watchlist.WatchlistStore.constructor | lib/hooks/use-watchlist.ts:10 | the hook starts with an empty list |
| Watchlist.WatchlistStore.AddSymbol | lib/hooks/use-watchlist.ts:26-45 | the result and new list are those of `AddToList`; a successful add persists the new list, a refused one writes nothing; distinct symbols stay distinct |
| Watchlist.WatchlistStore.RemoveSymbol | lib/hooks/use-watchlist.ts:47-51 | the new list is that of `RemoveFromList` and is persisted; distinct symbols stay distinct |
| Watchlist.WatchlistStore.ClearWatchlist | lib/hooks/use-watchlist.ts:53-56 | the list is empty and the persisted entry is removed |
| MockData.Closes | lib/mock-data.ts:121 | one close per bar, in order |
| MockData.Volumes | lib/mock-data.ts:129 | one volume per bar, in order |
| MockData.MinOf | lib/mock-data.ts:122 | `Math.min` is at most every element and is one of them |
| MockData.MaxOf | lib/mock-data.ts:123 | `Math.max` is at least every element and is one of them |
| MockData.CalculatePriceStats | lib/mock-data.ts:120-142 | `min ≤` every close `≤ max`, both attained; `current` is the last close; `min ≤ current, first ≤ max`; `change = current − first`; `changePercent = change / first · 100`; the 52-week values are `max`/`min`; `avgVolume` is the sum of volumes over their count |
| MockData.AvgVolumeWithin | lib/mock-data.ts:129-130 | for every non-empty series, the mean volume lies between the smallest and the largest volume, and it is the `avgVolume` of the statistics wherever those are defined |
| MockData.ChangePercentSign | lib/mock-data.ts:126-127 | with a positive first close, the percentage change is positive exactly when the price rose and negative exactly when it fell |
| MockData.Derive | lib/mock-data.ts:77-83 | `marketValue = shares·currentPrice`, `totalCost = shares·avgCost`, `unrealizedPL = marketValue − totalCost`, and the percentage is the gain per unit cost times 100 |
| MockData.ProfitPercentSign | lib/mock-data.ts:82 | with a positive average cost, the percentage profit has the sign of `currentPrice − avgCost` |
| MockData.SeedPositions | lib/mock-data.ts:71-76 | five seeded positions, each with a positive average cost |
| MockData.MockPortfolio | lib/mock-data.ts:70-84 | every seeded position is mapped, in order, to its derived holding |
| MockData.MockPortfolioInProfit | lib/mock-data.ts:70-84 | every seeded holding shows a positive profit and a positive percentage |
| IndicatorStatus.RsiStatus.Text | components/technical-indicators-card.tsx:28-30 | definition: the label texts "Overbought", "Oversold" and "Neutral" |
| IndicatorStatus.RsiStatus.Color | components/technical-indicators-card.tsx:28-30 | definition: red, green and gray colour classes for the three RSI labels |
| IndicatorStatus.MacdStatus.Text | components/technical-indicators-card.tsx:34-35 | definition: the label texts "Bullish" and "Bearish" |
| IndicatorStatus.MacdStatus.Color | components/technical-indicators-card.tsx:34-35 | definition: green for bullish, red for bearish |
| IndicatorStatus.TrendStatus.Text | components/technical-indicators-card.tsx:39-41 | definition: the label texts "Strong Uptrend", "Strong Downtrend" and "Sideways" |
| IndicatorStatus.TrendStatus.Color | components/technical-indicators-card.tsx:39-41 | definition: green, red and gray colour classes for the three trend labels |
| IndicatorStatus.GetRsiStatus | components/technical-indicators-card.tsx:27-31 | overbought exactly above 70, oversold exactly below 30, neutral exactly on `[30, 70]` |
| IndicatorStatus.GetMacdStatus | components/technical-indicators-card.tsx:33-36 | bullish exactly when MACD is above its signal; equality is bearish |
| IndicatorStatus.GetTrendStatus | components/technical-indicators-card.tsx:38-42 | strong uptrend exactly when `price > sma20 > sma50`, strong downtrend exactly when `price < sma20 < sma50`, otherwise sideways; so the two strong cases never hold together |
| IndicatorStatus.CardStatus | components/technical-indicators-card.tsx:44-46 | the card applies each classifier to the matching snapshot fields |
| IndicatorStatus.MacdStatusFollowsHistogram | components/technical-indicators-card.tsx:33-36 | on a computed snapshot, the MACD label is bullish exactly when the newest histogram bar is positive |
| IndicatorStatus.ConstantSeriesStatus | components/technical-indicators-card.tsx:27-46 | a flat series of 50 or more prices reads overbought, bearish and sideways |
| IndicatorStatus.FallingSeriesOversold | components/technical-indicators-card.tsx:27-31 | a series of 50 or more prices that falls at every step has RSI 0 and reads oversold |

## Left out

- Floating point: the model computes over exact rationals. Rounding, NaN and Infinity are not modelled, and neither are their consequences for comparisons and sorting.
- Indicators.CalculateBollingerBands: `Math.sqrt` is a parameter `sqrt`. The only thing assumed of it is that it maps non-negative numbers to non-negative numbers, so the bands are proved in terms of that root and not of the exact square root.
- Indicators.CalculateSMA, CalculateEMA, CalculateRSI, CalculateATR, CalculateStochastic, CalculateBollingerBands, CalculateMACD: these require every period to be at least 1 (for MACD, `fastPeriod > 0` and `signalPeriod > 0`); the dashboard only uses positive periods. A period of 0 divides by zero in the source.
- Default arguments are not modelled: every caller passes every argument. The source defaults are `period = 14` for `calculateRSI`, `calculateATR` and `calculateStochastic`; 12, 26 and 9 for `calculateMACD`; a period of 20 and `stdDev = 2` for `calculateBollingerBands`; and `searchable = true` for the table.
- Indicators.CalculateMACD: this requires `fastPeriod ≤ slowPeriod`. Otherwise the source reads `emaFast` at a negative index and gets `undefined`. The dashboard always calls it with 12, 26 and 9.
- Indicators.CalculateStochastic: this requires every `period`-bar window to have `high > low` (`NonFlatWindows`). The source divides by zero on a flat window, and the model provides no fallback value.
- Table.EnhancedTable.FilteredAndSortedData:
  - The model does not fix the order that `Array.prototype.sort` chooses. It specifies the result by the order `Before`, proved a total preorder, together with the permutation property, and sorts with an insertion sort.
  - On values of the same kind, `Before` is exactly the comparator's "not after" (`Table.CompareAgrees`), and a sorted list never reverses a strict decision of the comparator (`Table.SortedRespectsCompare`).
  - Between a number and a string the model always puts the number first, even where the comparator orders the pair consistently by text: `5` against `"!"` gives `"!"` first both ways (`Table.NumberVsStringDiverges`). A column mixing numbers and strings can also make the comparator cyclic (`Table.CompareMixedCycle`), which leaves the order `Array.prototype.sort` picks implementation-defined. The dashboard's only table, in the market-trends card (components/market-trends-card.tsx:6-17), has columns of a single kind.
  - Where the comparator is inconsistent on a single pair, the model picks an order:
    - two nullish values (the comparator puts each after the other);
    - two values with equal lower-cased text (the comparator says each comes first, see Findings).
- Table: cell values are `Null`, `Undefined`, a number with its printed form, or another value given by its printed form. How JavaScript's `String` prints an arbitrary value is not modelled.
- Common.Lower, Common.Upper: case mapping covers ASCII letters only. Strings compare by character code, as JavaScript's `<` does on UTF-16 code units; the model does not distinguish code points from UTF-16 units.
- Watchlist:
  - `localStorage` is the field `stored`.
  - `JSON.stringify`/`JSON.parse`, the `useEffect` that loads the saved list, and the `isLoaded` flag are not modelled.
  - `new Date().toISOString()` is the parameter `addedAt`.
  - React's asynchronous state updates are modelled as immediate assignments.
- MockData.CalculatePriceStats: an empty series or a first close of 0 is excluded by a precondition. The source returns `Infinity`, `-Infinity` or `NaN` there.
- MockData.Derive: an average cost of 0 is excluded. The source divides by zero there.
- The random and clock-driven generators in lib/mock-data.ts are not modelled: `generateMockStockData`, `generateMockTransactions` and the `POPULAR_STOCKS` table.
- The card labels' colours and texts are plain constants (`Text`, `Color`). The JSX rendering of every component is not modelled.
- The other files of the repository are not part of this model:
  - the CoinGecko proxy route;
  - the crypto card's polling;
  - the CSV export menu;
  - the market-trends card, the portfolio summary card and the watchlist panel.

## Findings

| source | as written | input that shows it | evidently intended | confidence | as-written member | corrected member |
|---|---|---|---|---|---|---|
| components/enhanced-table.tsx:59-66 | the string branch returns -1 whenever the texts are equal, so two rows with equal lower-cased text each compare before the other; the comparator is not consistent, and `Array.prototype.sort` may then order them any way | the cells `"AAPL"` and `"aapl"` under ascending order: `Compare(a, b) = Compare(b, a) = -1` | equal texts compare as equal, so the rows form a total preorder the sort can respect | medium, not executed | Table.CompareInconsistentOnEqualText, Table.CompareEqualTextExample | Table.Before, with Table.BeforeTotal, Table.BeforeTransitive and Table.RowOrderIsTotalPreorder, which Table.EnhancedTable.FilteredAndSortedData sorts by |
