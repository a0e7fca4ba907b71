# Apex bull-appear screener: a verified model of its detection core

This project models the detection core of a stock screener. The screener looks for a chart pattern called "apex bull appear" in daily price histories.

The pipeline has these stages:

1. Daily quotes are normalised: zero or missing prices become `null`, and rows with neither a low nor a high are dropped.
2. The quotes are merged into two-day bars. Pairing restarts each calendar year.
3. Each bar gets 20-, 50- and 200-bar simple moving averages.
4. Low inflexion points are found. These are five-bar pivots, and they serve as potential bear traps.
5. The traps that no later, lower trap undercuts are kept.
6. Every "wallaby" bar is scanned. A wallaby is an inside bar: its high is lower and its low higher than the previous bar's, and that previous bar is called the kangaroo. The scan looks for a dip below the kangaroo followed by a bullish bar back in its range, confirmed by a moving-average touch.

Two callers use the resulting signal dates:

- The analyze-stock handler scores each old-enough signal by whether the close `x` bars later is higher, and reports a win rate.
- The cache job recomputes stale tickers. For each one it fetches quotes with up to three attempts, tabulates the close change 1, 5 and 20 bars after each signal, and writes at most one row per ticker. A ticker skipped after a non-rate-limit error gets no row, and a `null` last close stops the job before that ticker's row is written.

Modules:

| file | module | models |
|---|---|---|
| `js_values.dfy` | `JsValues` | JavaScript's `null`/`undefined` and relational comparison (`null` is 0, `undefined` is NaN) |
| `seqs.dfy` | `Seqs` | `Array.prototype.filter` and `findIndex` on sequences, with their laws |
| `stock_data.dfy` | `StockData` | `convertToHistoricalResult` |
| `indicator_helpers.dfy` | `IndicatorHelpers` | `get2DayAggregatedData`, `calculateSMA`, `getLowInflexionPoints`, `findBearTraps` |
| `indicators.dfy` | `Indicators` | `getApexBullAppearDates` |
| `analyze_stock.dfy` | `AnalyzeStock` | the win-rate part of the analyze-stock `POST` handler |
| `real_arith.dfy` | `RealArith` | facts about real division used by the percentage proofs |
| `apex_cache.dfy` | `ApexCache` | the ticker selection, retry loop, analysis table and per-ticker loop of the cache job |

The code changes state in some places, and those places are imperative Dafny:

- The input array gets its `Date` fields written.
- Bars get their SMA fields filled in place.
- The scan loops use `break` and `continue`.
- The retry loop keeps a counter.
- `analysisResult` is filled key by key.

Each such method is proved equal to a specification function, and the properties are proved as lemmas about those functions.

The inputs are represented as follows:

- Timestamps are integers.
- The calendar year, the local calendar day and the ISO day string of a timestamp are function parameters (`year`, `localDay`, `isoDay`).
- "Now", the cutoff and 05:00 today are integers.
- Prices are reals; nullable prices are `Option<real>`.
- The quote service is the parameter `fetch`. `fetch(k)(ticker)(n)` is the `n`-th call of `fetchStockData` for `ticker` in pass `k` of the cache job's loop. A ticker selected twice can therefore be answered differently in each pass.

In these places the code does something easy to misread, and the model follows the code as written:

- A `null` close counts as 0 in an SMA sum (`acc + curr.Close`). It does not make the SMA `null`.
- The cached analysis entry has no volume field.
- The bear-trap branch of the confirmation loop reads `trap[1]`. A trap is an object `{date, low}`, so that read is `undefined` and the branch never fires (`Indicators.TrapBranchNeverFires`). A signal is therefore confirmed only by a moving-average touch.
- `findIndex(obj => obj.Date === date)` compares `Date` objects by identity. Each aggregated bar owns its `Date`, so the position found is the wallaby's own index and the `-1` branch is dead. The model scans the wallaby positions directly.
- `for (const year in yearlyData)` visits array-index keys (integers from 0 to 2^32 - 2) in ascending order, before any other key. The model's `year` returns a `nat`, so every year is such a key and the model joins the years in ascending order.

## Model

| member | source | states |
|---|---|---|
| JsValues.UndefinedIncomparable | utils/indicators.js:122 | every `<`/`<=` with `undefined` on either side is false |
| JsValues.NullableComparisons | utils/indicators.js:56 | comparing nullable prices is comparing them with `null` read as 0 |
| StockData.ConvertToHistoricalResult | utils/getStockData.js:4-20 | at most as many rows as quotes; every kept row has a low or a high and no zero price or volume |
| StockData.NormaliseQuoteFields | utils/getStockData.js:8-16 | a field becomes `null` exactly when it was `null` or 0, otherwise it is unchanged; date, adjclose and the parsed date are untouched |
| StockData.ConvertSelectsRows | app/api/analyze-stock/route.js:6-21 | the result is the normalised quotes, in input order, of exactly those quotes whose normalised low or high is non-null |
| StockData.ConvertIdempotent | utils/getStockData.js:7-19 | normalising normalised quotes changes nothing |
| IndicatorHelpers.PairUp | utils/indicator_helpers.js:45-59 | a year of `n` quotes gives `ceil(n/2)` bars |
| IndicatorHelpers.PairUpAt | utils/indicator_helpers.js:47-56 | bar `k` takes date and open from quote `2k`, close from quote `2k+1` (or `2k` if it is the last), high as the max and low as the min of the two, `null` read as 0 |
| IndicatorHelpers.AscendingYears | utils/indicator_helpers.js:41 | the years visited are exactly the years present |
| IndicatorHelpers.AscendingYearsSorted | utils/indicator_helpers.js:41 | the years are visited in strictly ascending order |
| IndicatorHelpers.StampDates | utils/indicator_helpers.js:28 | every input quote gets its parsed `Date`, nothing else changes |
| IndicatorHelpers.GroupByYear | utils/indicator_helpers.js:31-36 | the year map holds, per year, the quotes of that year in input order |
| IndicatorHelpers.GroupMapAppend | utils/indicator_helpers.js:33-34 | filing one more quote appends it to its year's list, creating the list for a new year |
| IndicatorHelpers.GroupMapConsistent | utils/indicator_helpers.js:31-36 | every quote filed under a year belongs to that year |
| IndicatorHelpers.AggregateYear | utils/indicator_helpers.js:43-59 | the loop with step 2 builds the pairs of one year |
| IndicatorHelpers.AggregateInYearOrder | utils/indicator_helpers.js:39-63 | the years' bars are appended in ascending year order |
| IndicatorHelpers.Get2DayAggregatedData | utils/indicator_helpers.js:23-66 | `null` or empty input gives no bars; otherwise the input is stamped and the bars are the per-year pairs joined in year order |
| IndicatorHelpers.PairUpYears | utils/indicator_helpers.js:45-59 | bars built from one year's quotes are dated in that year |
| IndicatorHelpers.JoinYearsFilter | utils/indicator_helpers.js:41-63 | the bars of year `y` in the joined list are exactly the pairs of year `y` |
| IndicatorHelpers.JoinYearsOrdered | utils/indicator_helpers.js:41-63 | the joined bars' years never decrease |
| IndicatorHelpers.AggregatedPerYear | utils/indicator_helpers.js:23-66 | per year, the output is that year's quotes paired off, `ceil(n/2)` bars; no pair straddles a year boundary |
| IndicatorHelpers.AggregatedYearsAscending | utils/indicator_helpers.js:41-63 | aggregated bars come in non-decreasing year order |
| IndicatorHelpers.AggregatedSingleYear | utils/indicator_helpers.js:41-62 | quotes of a single year are simply paired off, `ceil(n/2)` bars |
| IndicatorHelpers.AggregatedSingleQuote | utils/indicator_helpers.js:48-56 | a single quote pairs with itself |
| IndicatorHelpers.WithSmas | utils/indicator_helpers.js:12-18 | adding SMAs keeps the number of bars |
| IndicatorHelpers.CalculateSma | utils/indicator_helpers.js:2-21 | in place, each bar gets for every period its trailing mean, and the same array is returned |
| IndicatorHelpers.SumBounds | utils/indicator_helpers.js:7 | a sum of `n` closes within `[lo, hi]` lies within `[n*lo, n*hi]` |
| IndicatorHelpers.SmaAt | utils/indicator_helpers.js:4-8 | an SMA is `null` exactly before the first full window; otherwise SMA times period equals the sum of the window's closes, a `null` close adding 0 |
| IndicatorHelpers.SmaWithinCloses | utils/indicator_helpers.js:4-9 | once `period` bars exist the SMA is defined and lies between the lowest and highest close of its window |
| IndicatorHelpers.ConstantCloseSma | utils/indicator_helpers.js:4-9 | for a constant close `c`, the SMA is `null` before `period - 1` and `c` from there on |
| IndicatorHelpers.WithSmasShape | utils/indicator_helpers.js:13-18 | adding SMAs changes nothing but the SMA fields: same length, closes and every other field |
| IndicatorHelpers.WithSmasValues | utils/indicator_helpers.js:13-18 | after all periods, each listed period's field holds that period's SMA of the original bars; other fields are untouched |
| IndicatorHelpers.InflexionScan | utils/indicator_helpers.js:83-93 | the scan from `i` returns only inflexion indices in `[i, n-3]`, strictly increasing |
| IndicatorHelpers.LowInflexionPoints | utils/indicator_helpers.js:76-96 | each point is `{date, low}` of its inflexion bar |
| IndicatorHelpers.InflexionScanComplete | utils/indicator_helpers.js:83-93 | every inflexion from `i` on is found |
| IndicatorHelpers.LowInflexionIndicesExact | utils/indicator_helpers.js:76-96 | index `i` is reported iff `2 <= i < n-2` and its low is below both neighbours on each side; fewer than 5 bars give none |
| IndicatorHelpers.LowInflexionsSpaced | utils/indicator_helpers.js:83-92 | two reported inflexions are at least 3 bars apart |
| IndicatorHelpers.MonotoneLowsNoInflexion | utils/indicator_helpers.js:85-90 | lows that never fall, or never rise, give no inflexion |
| IndicatorHelpers.LowInflexionValley | utils/indicator_helpers.js:68-96 | lows 10, 8, 5, 8, 10 give exactly one point, at the middle bar |
| IndicatorHelpers.FindBearTraps | utils/indicator_helpers.js:108-135 | at most as many traps as candidates |
| IndicatorHelpers.BearTrapsExact | utils/indicator_helpers.js:108-135 | a trap is valid iff it is a candidate in `[from, to]` and no later candidate in the window has a lower low |
| IndicatorHelpers.BearTrapsNeedWindow | utils/indicator_helpers.js:112-118 | a missing bound (invalid date) gives no traps |
| IndicatorHelpers.BearTrapsInOrder | utils/indicator_helpers.js:116-132 | the valid traps are picked from the candidates in order, and candidate position `j` is picked iff it lies in the window and no later window candidate has a lower low, so repeated candidates are kept or dropped together |
| IndicatorHelpers.BearTrapsNonEmpty | utils/indicator_helpers.js:121-132 | if any candidate lies in the window, at least one trap is valid |
| IndicatorHelpers.BearTrapLowsRise | utils/indicator_helpers.js:121-132 | between two valid traps, the later one's low is not lower |
| IndicatorHelpers.BearTrapsExample | utils/indicator_helpers.js:108-135 | candidates (1,10), (2,8), (3,12) over `[1,3]` leave (2,8), (3,12) |
| Indicators.WallabiesBelow | utils/indicators.js:15-18 | every position collected is a wallaby below the bound |
| Indicators.WallabiesBelowExact | utils/indicators.js:15-18 | a position is collected iff it is a wallaby, in strictly increasing order |
| Indicators.WallabyPositionsExact | utils/indicators.js:15-24 | the scanned positions are exactly the bars whose high is below and low above the previous bar's |
| Indicators.BearTrapsWindowValid | utils/indicators.js:33-37 | traps are found only when both window dates exist |
| Indicators.LastThirty | utils/indicators.js:10-12 | `slice(-30)`: the last `min(n, 30)` bars, in order |
| Indicators.ScanPullback | utils/indicators.js:63-106 | the four-bar loop ends in the state the pullback definition gives |
| Indicators.ScanConfirm | utils/indicators.js:111-145 | the six-bar confirmation loop agrees with its definition |
| Indicators.ScanGates | utils/indicators.js:29-61 | the active traps are those of the window from 126 bars back to `K-1`, and the wallaby passes iff there are some, the 200 SMA does not fall over the next five bars and the kangaroo low is above its 50 SMA |
| Indicators.ScanCandidate | utils/indicators.js:22-145 | one wallaby's pass through the loop yields its candidate signal |
| Indicators.ScanBullAppear | utils/indicators.js:15-148 | the scan over all wallabies returns their signals in wallaby order |
| Indicators.SliceLastThirty | utils/indicators.js:10-12 | a fresh array with the last thirty bars |
| Indicators.SmaAggregate | utils/indicators.js:5-8 | stamps the input and returns a fresh array of its two-day bars carrying the 20, 50 and 200 SMAs |
| Indicators.GetApexBullAppearDates | utils/indicators.js:3-149 | stamps the caller's array and returns the signals of the SMA-annotated aggregated bars, cut to 30 bars first when the win rate is off |
| Indicators.FirstWallabyNeverSignals | utils/indicators.js:29-39 | a wallaby at position 1 has an empty trap window and never signals |
| Indicators.TrapBranchNeverFires | utils/indicators.js:122-123 | `trap[1]` is `undefined`, so the "bear trap taken" test is always false |
| Indicators.CandidateRejections | utils/indicators.js:39-61 | no active trap, a falling 200 SMA, or a kangaroo low at or below the 50 SMA each rule the wallaby out; too few bars never count as falling |
| Indicators.PullbackExact | utils/indicators.js:64-106 | the pullback succeeds iff some bar within 4 with no earlier breakout has dipped below the kangaroo and closes bullish in range; the date is that of the first such bar |
| Indicators.ConfirmExact | utils/indicators.js:113-145 | confirmation holds iff some bar from `K-1` on touches an SMA (offset > 0), is not after the candidate date, and no earlier bar ended the loop |
| Indicators.CandidateSignalExact | utils/indicators.js:29-145 | a wallaby emits `d` iff all gates pass, `d` is the first pullback bar's date and the confirmation holds for `d` |
| Indicators.EmittedSignal | utils/indicators.js:62-145 | an emitted date belongs to a bullish in-range bar 1 to 4 after the wallaby that follows a dip, and some bar from `K-1` to `W+3`, not after it, touches an SMA |
| Indicators.SignalsFollowWallabies | utils/indicators.js:21-147 | signals correspond one-to-one, in order, to the wallabies whose candidate fires |
| Indicators.ApexBullAppearBound | utils/indicators.js:3-149 | there are no more signals than wallabies in the scanned bars |
| Indicators.LastThirtyKeepsFullHistorySma | utils/indicators.js:7-12 | for any aggregated series and periods (`SmaBars` uses 20, 50, 200): after the 30-bar cut, bar `i` carries the SMA at its position in the full series, defined once that series is at least `p - 1 + 30` bars long |
| AnalyzeStock.Post | app/api/analyze-stock/route.js:44-90 | dates stay empty unless the indicator is enabled; `winRate` is present iff `showWinRate`, and is then NaN exactly when the date pool is empty |
| AnalyzeStock.IncreasedPrice | app/api/analyze-stock/route.js:69-76 | a date scores only if some bar carries exactly that date, the bar `x` later exists, and its close is higher |
| AnalyzeStock.WinRateOf | app/api/analyze-stock/route.js:80 | NaN iff the pool is empty; otherwise a percentage in `[0, 100]` |
| AnalyzeStock.Wins | app/api/analyze-stock/route.js:80 | the number of wins is at most the pool size |
| AnalyzeStock.DatePoolExact | app/api/analyze-stock/route.js:67 | the pool is exactly the signals before the cutoff and not after now, in signal order: signal position `j` is pooled iff its date qualifies, so a date signalled twice is pooled twice |
| AnalyzeStock.IncreasedPriceExact | app/api/analyze-stock/route.js:69-76 | a date scores iff its first exactly-matching bar and the bar `x` later exist and the close rose; no matching bar means no score |
| AnalyzeStock.WinRateRange | app/api/analyze-stock/route.js:79-80 | an empty pool gives NaN; otherwise the rate is in `[0, 100]` with `rate * pool = 100 * wins` |
| AnalyzeStock.WinsAll | app/api/analyze-stock/route.js:80 | all outcomes true count fully, all false count zero |
| AnalyzeStock.WinRateExtremes | app/api/analyze-stock/route.js:80 | all wins is 100, no wins is 0 |
| AnalyzeStock.PostShape | app/api/analyze-stock/route.js:44-90 | no dates unless the indicator is on; `winRate` is present iff asked for, NaN for an empty pool, else a percentage |
| AnalyzeStock.FailedFetchNoDates | app/api/analyze-stock/route.js:38-60 | a failed fetch (`data` is `null`) yields no dates |
| ApexCache.BuildAnalysis | app/api/calculate-apex-cache/route.js:113-129 | filling `analysisResult` in place gives the analysis table of the dates |
| ApexCache.ChangeAfter | app/api/calculate-apex-cache/route.js:125-127 | a change is `null` iff the bar `k` later is missing, and not finite iff that bar exists and the base close is 0 or `null` |
| ApexCache.ChangeAfterExact | app/api/calculate-apex-cache/route.js:125-127 | a change is `null` iff the later bar is missing, not finite iff the base close is 0 or `null`, else `100 * (later - base) / base` |
| ApexCache.DayEntryExact | app/api/calculate-apex-cache/route.js:116-128 | a date gets `{}` iff no bar is on its local day; otherwise its changes are measured from the first bar of that day |
| ApexCache.AnalysisKeys | app/api/calculate-apex-cache/route.js:114-123 | the table's keys are exactly the ISO days of the signal dates |
| ApexCache.AnalysisLastWins | app/api/calculate-apex-cache/route.js:122-123 | when two dates share an ISO day, the later one's entry is kept |
| ApexCache.FreshRecords | app/api/calculate-apex-cache/route.js:38-42 | a cached row is kept iff it has an analysis, a non-empty closing price and was created after 05:00 today |
| ApexCache.TickersToCalculate | app/api/calculate-apex-cache/route.js:46 | a ticker is recalculated iff it is listed and none of its cached rows is fresh; there are at most as many as listed |
| ApexCache.TickersToCalculateExact | app/api/calculate-apex-cache/route.js:35-46 | the tickers to recalculate are picked from the list in order, and list position `j` is picked iff that ticker has no fresh row, so a ticker listed twice is processed twice |
| ApexCache.SettledFrom | app/api/calculate-apex-cache/route.js:76-103 | the settling attempt is the first one that is not rate limited, or 3 |
| ApexCache.FetchWithRetry | app/api/calculate-apex-cache/route.js:70-106 | the loop's outcome is the declarative retry outcome, after at most 3 rate-limited attempts |
| ApexCache.RetryExact | app/api/calculate-apex-cache/route.js:76-103 | it gives up iff all three attempts are rate limited, skips iff the first other outcome is an error, else returns that attempt's normalised quotes |
| ApexCache.NoRetryOnOtherErrors | app/api/calculate-apex-cache/route.js:83-87 | an error other than rate limiting on the first call skips the ticker with no retry |
| ApexCache.RetryUsesThreeAttempts | app/api/calculate-apex-cache/route.js:72-76 | only the first three attempts matter |
| ApexCache.BuildRow | app/api/calculate-apex-cache/route.js:113-133 | the row holds the analysis table of the dates and the last close formatted; empty quotes give no price; a `null` last close aborts |
| ApexCache.ProcessTicker | app/api/calculate-apex-cache/route.js:110-133 | the scan runs on the fetched quotes and stamps them, and the row is built from the stamped quotes |
| ApexCache.HandleTicker | app/api/calculate-apex-cache/route.js:70-140 | one ticker's retry, scan and row in pass `k` agree with its definition, using that pass's own fetch outcomes |
| ApexCache.CalculateApexCache | app/api/calculate-apex-cache/route.js:35-141 | the deletes, inserts and ending are those of the job definition over the selected tickers, where the `i`-th selected ticker is processed with the fetch outcomes of pass `i` (attempts restart in every pass) |
| ApexCache.RunIsPrefix | app/api/calculate-apex-cache/route.js:54-141 | processed tickers are a prefix of the selection, in order, with at most one insert per processed ticker |
| ApexCache.RunEndsAtStop | app/api/calculate-apex-cache/route.js:54-141 | when every stop names its ticker, the loop ends normally only after all tickers and otherwise at the last ticker processed, the one that stopped it in its own pass |
| ApexCache.TickerStepCause | app/api/calculate-apex-cache/route.js:90-133 | a ticker stops the job only with a status naming it, and giving up in a pass happens only when its three attempts in that pass were rate limited |
| ApexCache.RunStops | app/api/calculate-apex-cache/route.js:54-141 | for any loop whose stops name their cause, a normal end processed every ticker, an early end is at the last ticker processed, and giving up there means that pass's attempts were all rate limited |
| ApexCache.CacheRunStops | app/api/calculate-apex-cache/route.js:54-141 | a normal end processed every selected ticker; an early end stops at the ticker that caused it; giving up means its three attempts in its own (last) pass were rate limited |

## Left out

- Network and storage are parameters or outputs: the SEC ticker list, the Yahoo Finance chart call, and the cache table's select, delete and insert. Failed table operations (the `return`s at lines 30-33, 62-65 and 134-137 of the cache route) are not modelled; the table calls are taken to succeed.
- The 10-minute wait between attempts and all console logging are not modelled; they do not change results.
- Time zones and date parsing are function parameters: `getFullYear`, `setHours(0,0,0,0)`, `toISOString().split('T')[0]` and `new Date(x) - days`. Invalid date strings, which make `new Date` NaN, are not modelled, except for a missing window bound in `findBearTraps`.
- `toFixed(2)` is the parameter `toFixed2`.
- IndicatorHelpers.AscendingYears: years are taken to be array-index keys, because `year` returns a `nat`. Quotes dated before year 0 would give negative keys, which JavaScript enumerates after the others in insertion order; they are not modelled.
- Floating point is modelled as exact reals. NaN is modelled only where the code relies on it: `undefined` operands and the empty-pool win rate. Infinite and NaN percentage changes are merged into `NotFinite`, which is the `null` they become in JSON.
- `Number.isNaN` prices from Yahoo are not modelled: `quote.open || null` maps NaN to `null`, but the model's prices are always numbers.
- IndicatorHelpers.CalculateSma: requires positive periods, whereas a 0 period would give NaN SMAs in the code. Every caller passes `[20, 50, 200]`, so a 0 period never occurs.
- Indicators.GetApexBullAppearDates: the `wallabyPos === -1` branch is not modelled, because identity `findIndex` always finds the wallaby.
- AnalyzeStock.Post: the request body's settings are plain parameters. A non-integer `x` is not modelled.
- High inflexion points and a "bull raging" scan are not part of the modelled source files, so they are not modelled.
- The normaliser is written twice, at app/api/analyze-stock/route.js:6-21 and at utils/getStockData.js:4-20. The two copies are identical, so one function models both. The cache job uses the second one through `fetchStockData`.
