/** The cache job of app/api/calculate-apex-cache/route.js: pick the tickers
    without a fresh cached result, fetch each one's quotes with up to three
    attempts, run the bull-appear scan, tabulate the close change 1, 5 and 20
    bars after each signal, and hand at most one row per ticker to the cache
    table.
    The ticker list, the cached rows, the clock, the quote service and the
    date formatting are parameters; the cache table's deletes and inserts are
    returned as the sequences of tickers and rows handed to it. */
module ApexCache {
  import opened JsValues
  import opened Seqs
  import opened StockData
  import opened IndicatorHelpers
  import opened Indicators
  import opened RealArith

  // ---------------------------------------------------------------------
  // The analysis table (lines 113-129)
  // ---------------------------------------------------------------------

  /** One `changeKTD` value: `null` when bar `idx + K` is missing, the
      percentage change otherwise; a zero (`null`) base close makes it
      infinite or NaN, which the JSON column stores as `null`. */
  datatype Change = Missing | Pct(value: real) | NotFinite

  /** An `analysisResult` entry: `{}` when the date was not found in the
      quotes, else the three changes. */
  datatype DayAnalysis = NotFound | Changes(change1TD: Change, change5TD: Change, change20TD: Change)

  /** The `analysis` column: entries keyed by ISO day. */
  type Analysis = map<string, DayAnalysis>

  /** `changeKTD` at `dateIndex`. */
  function ChangeAfter(stockData: seq<Quote>, dateIndex: nat, k: nat): (r: Change)
    requires dateIndex < |stockData|
    ensures r.Missing? <==> |stockData| <= dateIndex + k
    ensures r.NotFinite? <==> dateIndex + k < |stockData| && Num(stockData[dateIndex].close) == 0.0
  {
    if dateIndex + k < |stockData| then
      var base := Num(stockData[dateIndex].close);
      if base == 0.0 then NotFinite
      else Pct((Num(stockData[dateIndex + k].close) - base) / base * 100.0)
    else Missing
  }

  /** The first quote on the same local calendar day as `date`. */
  function DayIndex(stockData: seq<Quote>, date: int, localDay: int -> int): int
  {
    FindIndex(stockData, (entry: Quote) => localDay(entry.date) == localDay(date))
  }

  /** The entry written for one signal date. */
  function DayEntry(stockData: seq<Quote>, date: int, localDay: int -> int): DayAnalysis
  {
    var dateIndex := DayIndex(stockData, date, localDay);
    if dateIndex == -1 then NotFound
    else Changes(ChangeAfter(stockData, dateIndex, 1), ChangeAfter(stockData, dateIndex, 5),
                 ChangeAfter(stockData, dateIndex, 20))
  }

  /** `analysisResult` after visiting `dates` in order; a later date with the
      same ISO day overwrites an earlier one. */
  function AnalysisTable(stockData: seq<Quote>, dates: seq<int>, localDay: int -> int, isoDay: int -> string): Analysis
  {
    if dates == [] then map[]
    else
      var last := dates[|dates| - 1];
      AnalysisTable(stockData, dates[..|dates| - 1], localDay, isoDay)[isoDay(last) := DayEntry(stockData, last, localDay)]
  }

  /** Lines 113-129: fills `analysisResult` in place, one date at a time. */
  method BuildAnalysis(stockData: seq<Quote>, dates: seq<int>, localDay: int -> int, isoDay: int -> string)
    returns (analysisResult: Analysis)
    ensures analysisResult == AnalysisTable(stockData, dates, localDay, isoDay)
  {
    analysisResult := map[];
    for i := 0 to |dates|
      invariant analysisResult == AnalysisTable(stockData, dates[..i], localDay, isoDay)
    {
      var bullAppearDate := dates[i];
      var dateIndex := FindIndex(stockData, (entry: Quote) => localDay(entry.date) == localDay(bullAppearDate));
      var bullAppearDateSimple := isoDay(bullAppearDate);
      analysisResult := analysisResult[bullAppearDateSimple := NotFound];
      if dateIndex != -1 {
        analysisResult := analysisResult[bullAppearDateSimple := Changes(
          ChangeAfter(stockData, dateIndex, 1), ChangeAfter(stockData, dateIndex, 5), ChangeAfter(stockData, dateIndex, 20))];
      }
      assert dates[..i + 1][..i] == dates[..i];
    }
    assert dates[..|dates|] == dates;
  }

  /** A change is missing iff the later bar is; otherwise it is the
      percentage change of the close, `100 * (later - base) / base`, or not
      finite when the base close is 0 or `null`. */
  lemma ChangeAfterExact(stockData: seq<Quote>, dateIndex: nat, k: nat)
    requires dateIndex < |stockData|
    ensures ChangeAfter(stockData, dateIndex, k) == Missing <==> |stockData| <= dateIndex + k
    ensures ChangeAfter(stockData, dateIndex, k) == NotFinite <==>
      dateIndex + k < |stockData| && Num(stockData[dateIndex].close) == 0.0
    ensures ChangeAfter(stockData, dateIndex, k).Pct? ==>
      var base := Num(stockData[dateIndex].close);
      ChangeAfter(stockData, dateIndex, k).value * base == 100.0 * (Num(stockData[dateIndex + k].close) - base)
  {
    if dateIndex + k < |stockData| && Num(stockData[dateIndex].close) != 0.0 {
      var base := Num(stockData[dateIndex].close);
      var diff := Num(stockData[dateIndex + k].close) - base;
      DivMul(diff, base);
    }
  }

  /** A date gets `{}` iff no quote falls on its local day; otherwise its
      changes are measured from the first quote of that day. */
  lemma DayEntryExact(stockData: seq<Quote>, date: int, localDay: int -> int)
    ensures DayEntry(stockData, date, localDay) == NotFound <==>
      forall i :: 0 <= i < |stockData| ==> localDay(stockData[i].date) != localDay(date)
    ensures DayEntry(stockData, date, localDay).Changes? ==>
      exists i :: 0 <= i < |stockData| && localDay(stockData[i].date) == localDay(date)
        && (forall j :: 0 <= j < i ==> localDay(stockData[j].date) != localDay(date))
        && DayEntry(stockData, date, localDay)
          == Changes(ChangeAfter(stockData, i, 1), ChangeAfter(stockData, i, 5), ChangeAfter(stockData, i, 20))
  {
    var i := DayIndex(stockData, date, localDay);
    if i != -1 {
      assert localDay(stockData[i].date) == localDay(date);
    }
  }

  /** Every signal date has an entry under its ISO day, and there are no
      other entries. */
  lemma {:induction false} AnalysisKeys(stockData: seq<Quote>, dates: seq<int>, localDay: int -> int, isoDay: int -> string)
    ensures forall d :: d in dates ==> isoDay(d) in AnalysisTable(stockData, dates, localDay, isoDay)
    ensures forall k :: k in AnalysisTable(stockData, dates, localDay, isoDay) ==> exists d :: d in dates && isoDay(d) == k
    decreases |dates|
  {
    if dates != [] {
      var n := |dates| - 1;
      AnalysisKeys(stockData, dates[..n], localDay, isoDay);
      assert dates == dates[..n] + [dates[n]];
      forall k | k in AnalysisTable(stockData, dates, localDay, isoDay) ensures exists d :: d in dates && isoDay(d) == k {
        if k != isoDay(dates[n]) {
          var d :| d in dates[..n] && isoDay(d) == k;
          assert d in dates;
        }
      }
    }
  }

  /** The entry under a key is the one of the last date with that ISO day. */
  lemma {:induction false} AnalysisLastWins(stockData: seq<Quote>, dates: seq<int>, localDay: int -> int,
                                            isoDay: int -> string, i: nat)
    requires i < |dates|
    requires forall j :: i < j < |dates| ==> isoDay(dates[j]) != isoDay(dates[i])
    ensures isoDay(dates[i]) in AnalysisTable(stockData, dates, localDay, isoDay)
    ensures AnalysisTable(stockData, dates, localDay, isoDay)[isoDay(dates[i])] == DayEntry(stockData, dates[i], localDay)
    decreases |dates|
  {
    var n := |dates| - 1;
    if i < n {
      AnalysisLastWins(stockData, dates[..n], localDay, isoDay, i);
    }
  }

  // ---------------------------------------------------------------------
  // Freshness filter and ticker selection (lines 35-46)
  // ---------------------------------------------------------------------

  /** A row of the `apex_bull_appear` table as read back. */
  datatype CacheRecord = CacheRecord(ticker: string, analysis: Option<Analysis>,
                                     latestClosePrice: Option<string>, createdAt: int)

  /** `item.analysis && item.latestClosePrice && new Date(item.created_at) > fiveAMSGT`:
      an analysis object is present (even an empty one is truthy), the price
      string is present and non-empty, and the row was written after 05:00
      today. */
  predicate IsFresh(item: CacheRecord, fiveAM: int)
  {
    item.analysis.Some? && item.latestClosePrice.Some? && item.latestClosePrice.value != "" && item.createdAt > fiveAM
  }

  /** `bullAppearDataWithValidDates`. */
  function FreshRecords(bullAppearData: seq<CacheRecord>, fiveAM: int): (r: seq<CacheRecord>)
    ensures forall item :: item in r <==> item in bullAppearData && IsFresh(item, fiveAM)
  {
    FilterMembers(bullAppearData, (item: CacheRecord) => IsFresh(item, fiveAM));
    Filter(bullAppearData, (item: CacheRecord) => IsFresh(item, fiveAM))
  }

  /** `tickersToCalculate`: the tickers with no fresh row. */
  function TickersToCalculate(tickers: seq<string>, bullAppearData: seq<CacheRecord>, fiveAM: int): (r: seq<string>)
    ensures |r| <= |tickers|
    ensures forall t :: t in r <==> t in tickers && !HasFreshRow(bullAppearData, fiveAM, t)
  {
    var valid := FreshRecords(bullAppearData, fiveAM);
    FilterMembers(tickers, (ticker: string) => !exists item :: item in valid && item.ticker == ticker);
    Filter(tickers, (ticker: string) => !exists item :: item in valid && item.ticker == ticker)
  }

  /** Some row of `t` in the table is fresh. */
  ghost predicate HasFreshRow(bullAppearData: seq<CacheRecord>, fiveAM: int, t: string)
  {
    exists item :: item in bullAppearData && item.ticker == t && IsFresh(item, fiveAM)
  }

  /** The `some` test over the fresh rows agrees with `HasFreshRow`. */
  lemma FreshRowsOf(bullAppearData: seq<CacheRecord>, fiveAM: int, t: string)
    ensures (exists item :: item in FreshRecords(bullAppearData, fiveAM) && item.ticker == t)
      <==> HasFreshRow(bullAppearData, fiveAM, t)
  {
    if HasFreshRow(bullAppearData, fiveAM, t) {
      var item :| item in bullAppearData && item.ticker == t && IsFresh(item, fiveAM);
      FilterKeeps(bullAppearData, (item: CacheRecord) => IsFresh(item, fiveAM), item);
    }
  }

  /** A ticker is recalculated iff it is listed and none of its rows is
      fresh; the tickers keep their input order: the result is picked out of
      `tickers` by the positions `idx`, and position `j` is picked iff that
      ticker has no fresh row, so a ticker listed twice is processed twice. */
  lemma TickersToCalculateExact(tickers: seq<string>, bullAppearData: seq<CacheRecord>, fiveAM: int, t: string)
    returns (idx: seq<int>)
    ensures t in TickersToCalculate(tickers, bullAppearData, fiveAM) <==>
      t in tickers && forall item :: item in bullAppearData && item.ticker == t ==> !IsFresh(item, fiveAM)
    ensures SelectedBy(TickersToCalculate(tickers, bullAppearData, fiveAM), tickers, idx)
    ensures forall j :: 0 <= j < |tickers| ==> (j in idx <==> !HasFreshRow(bullAppearData, fiveAM, tickers[j]))
  {
    var valid := FreshRecords(bullAppearData, fiveAM);
    var stale := (ticker: string) => !exists item :: item in valid && item.ticker == ticker;
    FreshRowsOf(bullAppearData, fiveAM, t);
    if !HasFreshRow(bullAppearData, fiveAM, t) && t in tickers {
      FilterKeeps(tickers, stale, t);
    }
    idx := FilterSelects(tickers, stale);
    forall j | 0 <= j < |tickers|
      ensures j in idx <==> !HasFreshRow(bullAppearData, fiveAM, tickers[j])
    {
      FreshRowsOf(bullAppearData, fiveAM, tickers[j]);
    }
  }

  // ---------------------------------------------------------------------
  // Fetching with retries (lines 70-106)
  // ---------------------------------------------------------------------

  /** What one call of `fetchStockData` did: returned the chart's quotes, or
      threw an error with this message. */
  datatype FetchOutcome = Fetched(quotes: seq<Quote>) | Threw(message: string)

  /** `s.includes(part)`. */
  predicate Contains(s: string, part: string)
  {
    exists i | 0 <= i <= |s| - |part| :: OccursAt(s, part, i)
  }

  predicate OccursAt(s: string, part: string, i: int)
  {
    0 <= i <= |s| - |part| && s[i..i + |part|] == part
  }

  predicate RateLimited(outcome: FetchOutcome)
  {
    outcome.Threw? && Contains(outcome.message, "Too Many Requests")
  }

  const MaxAttempts: nat := 3

  /** How the retry loop ends for one ticker. */
  datatype Fetch = Got(stockData: seq<Quote>) | Skipped | GaveUp

  /** The first attempt from `i` on that is not rate limited, or
      `MaxAttempts` when there is none before it. */
  function SettledFrom(attempt: nat -> FetchOutcome, i: nat): (r: nat)
    requires i <= MaxAttempts
    ensures i <= r <= MaxAttempts
    ensures forall j :: i <= j < r ==> RateLimited(attempt(j))
    ensures r < MaxAttempts ==> !RateLimited(attempt(r))
    decreases MaxAttempts - i
  {
    if i == MaxAttempts then MaxAttempts
    else if RateLimited(attempt(i)) then SettledFrom(attempt, i + 1)
    else i
  }

  /** The outcome the loop settles on: the data of the first attempt that is
      not rate limited, a skip if that attempt threw anything else, or giving
      up after `MaxAttempts` rate-limited attempts. */
  function RetryOutcome(attempt: nat -> FetchOutcome): Fetch
  {
    var i := SettledFrom(attempt, 0);
    if i == MaxAttempts then GaveUp
    else match attempt(i)
      case Fetched(quotes) => Got(ConvertToHistoricalResult(quotes))
      case Threw(_) => Skipped
  }

  /** Lines 70-106. `attempt(n)` is what the `n`-th call of `fetchStockData`
      does; the 10-minute wait between attempts is not modelled. Giving up
      (the status-500 response at line 95) is taken after the loop, when the
      counter has reached `MaxAttempts`. */
  method FetchWithRetry(attempt: nat -> FetchOutcome) returns (r: Fetch, attempts: nat)
    ensures r == RetryOutcome(attempt)
    ensures attempts == SettledFrom(attempt, 0) && attempts <= MaxAttempts
  {
    var stockData: seq<Quote> := [];
    attempts := 0;
    var skip := false;
    while attempts < MaxAttempts
      invariant attempts <= MaxAttempts && !skip
      invariant SettledFrom(attempt, attempts) == SettledFrom(attempt, 0)
    {
      var outcome := attempt(attempts);
      if outcome.Fetched? {
        stockData := ConvertToHistoricalResult(outcome.quotes);
        break;
      }
      if !Contains(outcome.message, "Too Many Requests") {
        skip := true;
        break;
      }
      attempts := attempts + 1;
    }
    if attempts == MaxAttempts {
      r := GaveUp;
    } else if skip {
      r := Skipped;
    } else {
      r := Got(stockData);
    }
  }

  /** The loop gives up iff all three attempts are rate limited; it skips iff
      the first attempt that is not rate limited threw; otherwise it returns
      the normalised quotes of that attempt. Attempts after the third are
      never made. */
  lemma RetryExact(attempt: nat -> FetchOutcome)
    ensures RetryOutcome(attempt) == GaveUp <==> forall j :: 0 <= j < MaxAttempts ==> RateLimited(attempt(j))
    ensures RetryOutcome(attempt) == Skipped <==>
      exists i :: 0 <= i < MaxAttempts && attempt(i).Threw? && !RateLimited(attempt(i))
        && forall j :: 0 <= j < i ==> RateLimited(attempt(j))
    ensures RetryOutcome(attempt).Got? <==>
      exists i :: 0 <= i < MaxAttempts && attempt(i).Fetched?
        && RetryOutcome(attempt) == Got(ConvertToHistoricalResult(attempt(i).quotes))
        && forall j :: 0 <= j < i ==> RateLimited(attempt(j))
  {
    var s := SettledFrom(attempt, 0);
    forall i | 0 <= i < MaxAttempts && !RateLimited(attempt(i)) && (forall j :: 0 <= j < i ==> RateLimited(attempt(j)))
      ensures i == s
    {
    }
  }

  /** An error other than rate limiting on the first attempt skips the
      ticker at once, after a single call. */
  lemma NoRetryOnOtherErrors(attempt: nat -> FetchOutcome)
    requires attempt(0).Threw? && !RateLimited(attempt(0))
    ensures RetryOutcome(attempt) == Skipped && SettledFrom(attempt, 0) == 0
  {
  }

  lemma {:induction false} SettledFromAgrees(a: nat -> FetchOutcome, b: nat -> FetchOutcome, i: nat)
    requires i <= MaxAttempts
    requires forall j :: 0 <= j < MaxAttempts ==> a(j) == b(j)
    ensures SettledFrom(a, i) == SettledFrom(b, i)
    decreases MaxAttempts - i
  {
    if i < MaxAttempts {
      SettledFromAgrees(a, b, i + 1);
    }
  }

  /** Only the first three attempts matter. */
  lemma RetryUsesThreeAttempts(a: nat -> FetchOutcome, b: nat -> FetchOutcome)
    requires forall j :: 0 <= j < MaxAttempts ==> a(j) == b(j)
    ensures RetryOutcome(a) == RetryOutcome(b)
  {
    SettledFromAgrees(a, b, 0);
  }

  // ---------------------------------------------------------------------
  // The per-ticker loop (lines 54-141)
  // ---------------------------------------------------------------------

  /** What the job takes from outside: `fetch(k)(ticker)(n)` is the `n`-th
      call of `fetchStockData` for `ticker` in pass `k` of the loop (the
      quote service need not answer a ticker selected twice the same way
      both times); `year`, `localDay` and `isoDay` read a timestamp's
      calendar year, local day and ISO day; `toFixed2` is `toFixed(2)`. */
  datatype Env = Env(fetch: nat -> string -> (nat -> FetchOutcome), year: int -> nat, localDay: int -> int,
                     isoDay: int -> string, toFixed2: real -> string)

  /** A row handed to the cache table's insert. `latestClosePrice` is
      `None` for empty quotes (`stockData[-1]?.close` is `undefined`). */
  datatype CacheRow = CacheRow(ticker: string, analysis: Analysis, latestClosePrice: Option<string>)

  /** How the job ended: normally, with the status-500 response after three
      rate-limited attempts, or by the `TypeError` of `null.toFixed` when the
      last quote has no close. */
  datatype RunStatus = Completed | GaveUpOn(ticker: string) | CloseMissing(ticker: string)

  /** What one ticker does to the job: end it, or let it go on having
      inserted a row or not (a skipped ticker). */
  datatype TickerResult = Stop(status: RunStatus) | Next(row: Option<CacheRow>)

  /** The tickers whose rows were deleted, the rows inserted, and the end. */
  datatype Run = Run(deleted: seq<string>, inserted: seq<CacheRow>, status: RunStatus)

  /** The row for one ticker's (stamped) quotes and signal dates, or `None`
      when reading the last close throws. */
  function RowFor(ticker: string, stockData: seq<Quote>, dates: seq<int>, env: Env): Option<CacheRow>
  {
    var analysis := AnalysisTable(stockData, dates, env.localDay, env.isoDay);
    if stockData == [] then Some(CacheRow(ticker, analysis, None))
    else match stockData[|stockData| - 1].close
      case None => None
      case Some(c) => Some(CacheRow(ticker, analysis, Some(env.toFixed2(c))))
  }

  /** Lines 70-140 for `ticker` in pass `k` of the loop. */
  ghost function TickerStep(k: nat, ticker: string, env: Env): TickerResult
  {
    match RetryOutcome(env.fetch(k)(ticker))
    case GaveUp => Stop(GaveUpOn(ticker))
    case Skipped => Next(None)
    case Got(stockData) =>
      var dates := ApexBullAppear(Some(stockData), env.year, true);
      match RowFor(ticker, Stamp(stockData), dates, env)
      case None => Stop(CloseMissing(ticker))
      case Some(row) => Next(Some(row))
  }

  function RowsOf(row: Option<CacheRow>): seq<CacheRow>
  {
    if row.Some? then [row.value] else []
  }

  /** The loop over `tickers`, one after another, from pass `k` on, where
      `step(k, t)` says what ticker `t` does in pass `k`. */
  function RunOf(tickers: seq<string>, step: (nat, string) -> TickerResult, k: nat): Run
    decreases |tickers|
  {
    if tickers == [] then Run([], [], Completed)
    else
      match step(k, tickers[0])
      case Stop(status) => Run([tickers[0]], [], status)
      case Next(row) =>
        var rest := RunOf(tickers[1..], step, k + 1);
        Run([tickers[0]] + rest.deleted, RowsOf(row) + rest.inserted, rest.status)
  }

  /** What each ticker does in each pass. */
  ghost function Steps(env: Env): (nat, string) -> TickerResult
  {
    (k: nat, t: string) => TickerStep(k, t, env)
  }

  /** The job over `tickers`. */
  ghost function CacheRun(tickers: seq<string>, env: Env): Run
  {
    RunOf(tickers, Steps(env), 0)
  }

  /** The whole job, from the freshness filter on. */
  ghost function ApexCacheJob(tickers: seq<string>, bullAppearData: seq<CacheRecord>, fiveAM: int, env: Env): Run
  {
    CacheRun(TickersToCalculate(tickers, bullAppearData, fiveAM), env)
  }

  /** Lines 113-133: tabulate the changes and build the row to insert. */
  method BuildRow(ticker: string, stockData: seq<Quote>, dates: seq<int>, env: Env) returns (row: Option<CacheRow>)
    ensures row == RowFor(ticker, stockData, dates, env)
  {
    var analysisResult := BuildAnalysis(stockData, dates, env.localDay, env.isoDay);
    if |stockData| == 0 {
      row := Some(CacheRow(ticker, analysisResult, None));
    } else if stockData[|stockData| - 1].close.None? {
      row := None;
    } else {
      row := Some(CacheRow(ticker, analysisResult, Some(env.toFixed2(stockData[|stockData| - 1].close.value))));
    }
  }

  /** One ticker after a successful fetch: scan, tabulate, and build the row.
      The scan stamps the quotes, and the table is built on the stamped
      quotes. */
  method ProcessTicker(ticker: string, stockData: seq<Quote>, env: Env) returns (row: Option<CacheRow>)
    ensures row == RowFor(ticker, Stamp(stockData), ApexBullAppear(Some(stockData), env.year, true), env)
  {
    var data := new Quote[|stockData|](j requires 0 <= j < |stockData| => stockData[j]);
    assert data[..] == stockData;
    var dates := GetApexBullAppearDates(data, env.year, true);
    assert data[..] == Stamp(stockData) by {
      if data.Length == 0 {
        StampEmpty(stockData);
      }
    }
    row := BuildRow(ticker, data[..], dates, env);
  }

  /** Lines 57-140 for `ticker` in pass `k`: the delete is left to the
      caller. */
  method HandleTicker(k: nat, ticker: string, env: Env) returns (r: TickerResult)
    ensures r == TickerStep(k, ticker, env)
  {
    var stockData, attempts := FetchWithRetry(env.fetch(k)(ticker));
    if stockData == GaveUp {
      return Stop(GaveUpOn(ticker));
    }
    if stockData == Skipped {
      return Next(None);
    }
    var row := ProcessTicker(ticker, stockData.stockData, env);
    if row.None? {
      return Stop(CloseMissing(ticker));
    }
    return Next(row);
  }

  function Resume(deleted: seq<string>, inserted: seq<CacheRow>, rest: Run): Run
  {
    Run(deleted + rest.deleted, inserted + rest.inserted, rest.status)
  }

  /** Processing ticker `i` moves it (and its row) from the loop's rest to
      what has been done. */
  lemma RunStep(tickers: seq<string>, i: nat, deleted: seq<string>, inserted: seq<CacheRow>,
                step: (nat, string) -> TickerResult)
    requires i < |tickers|
    ensures step(i, tickers[i]).Stop? ==>
      Resume(deleted, inserted, RunOf(tickers[i..], step, i))
        == Run(deleted + [tickers[i]], inserted, step(i, tickers[i]).status)
    ensures step(i, tickers[i]).Next? ==>
      Resume(deleted, inserted, RunOf(tickers[i..], step, i))
        == Resume(deleted + [tickers[i]], inserted + RowsOf(step(i, tickers[i]).row),
                  RunOf(tickers[i + 1..], step, i + 1))
  {
    assert tickers[i..][1..] == tickers[i + 1..];
    var rest := RunOf(tickers[i + 1..], step, i + 1);
    assert deleted + ([tickers[i]] + rest.deleted) == deleted + [tickers[i]] + rest.deleted;
    if step(i, tickers[i]).Next? {
      var rows := RowsOf(step(i, tickers[i]).row);
      assert inserted + (rows + rest.inserted) == inserted + rows + rest.inserted;
    }
  }


  /** `calculateApexCache` from line 35 on: select the tickers, then for each
      delete its rows, fetch, scan, tabulate and insert, in order. */
  method CalculateApexCache(tickers: seq<string>, bullAppearData: seq<CacheRecord>, fiveAM: int, env: Env)
    returns (run: Run)
    ensures run == ApexCacheJob(tickers, bullAppearData, fiveAM, env)
  {
    var tickersToCalculate := TickersToCalculate(tickers, bullAppearData, fiveAM);
    ghost var step := Steps(env);
    ghost var goal := RunOf(tickersToCalculate, step, 0);
    assert tickersToCalculate[0..] == tickersToCalculate;
    var deleted: seq<string> := [];
    var inserted: seq<CacheRow> := [];
    for i := 0 to |tickersToCalculate|
      invariant goal == Resume(deleted, inserted, RunOf(tickersToCalculate[i..], step, i))
    {
      var ticker := tickersToCalculate[i];
      RunStep(tickersToCalculate, i, deleted, inserted, step);
      deleted := deleted + [ticker];
      var result := HandleTicker(i, ticker, env);
      if result.Stop? {
        return Run(deleted, inserted, result.status);
      }
      inserted := inserted + RowsOf(result.row);
    }
    assert deleted + [] == deleted && inserted + [] == inserted;
    run := Run(deleted, inserted, Completed);
  }

  /** The processed tickers are a prefix of the selected ones, in order, and
      each of them inserts at most one row. */
  lemma {:induction false} RunIsPrefix(tickers: seq<string>, step: (nat, string) -> TickerResult, k: nat)
    ensures var run := RunOf(tickers, step, k);
      && |run.deleted| <= |tickers| && run.deleted == tickers[..|run.deleted|]
      && |run.inserted| <= |run.deleted|
    decreases |tickers|
  {
    if tickers != [] {
      var run := RunOf(tickers, step, k);
      match step(k, tickers[0])
      case Stop(status) =>
      case Next(row) =>
        RunIsPrefix(tickers[1..], step, k + 1);
        var rest := RunOf(tickers[1..], step, k + 1);
        assert tickers[..|run.deleted|] == [tickers[0]] + tickers[1..][..|rest.deleted|];
    }
  }

  /** Every stop names the ticker that caused it and is not a normal end. */
  ghost predicate StopsWithCause(step: (nat, string) -> TickerResult)
  {
    forall k: nat, t :: step(k, t).Stop? ==> step(k, t).status != Completed && step(k, t).status.ticker == t
  }

  /** The loop ends normally only after every ticker; otherwise it ends at
      the last ticker processed, which is the one that stopped it in its
      pass. */
  lemma {:induction false} RunEndsAtStop(tickers: seq<string>, step: (nat, string) -> TickerResult, k: nat)
    requires StopsWithCause(step)
    ensures var run := RunOf(tickers, step, k);
      && (run.status == Completed ==> run.deleted == tickers)
      && (run.status != Completed ==>
            (run.deleted != [] && run.status.ticker == run.deleted[|run.deleted| - 1]
             && step(k + |run.deleted| - 1, run.status.ticker) == Stop(run.status)))
    decreases |tickers|
  {
    if tickers != [] {
      match step(k, tickers[0])
      case Stop(status) =>
      case Next(row) =>
        RunEndsAtStop(tickers[1..], step, k + 1);
        assert tickers == [tickers[0]] + tickers[1..];
    }
  }

  /** A stop by giving up on `t` in pass `k` happens only when all three
      attempts of `t` in that pass were rate limited. */
  ghost predicate GivesUpWhenLimited(step: (nat, string) -> TickerResult, fetch: nat -> string -> (nat -> FetchOutcome))
  {
    forall k: nat, t :: step(k, t) == Stop(GaveUpOn(t)) ==> RetryOutcome(fetch(k)(t)) == GaveUp
  }

  /** A ticker stops the job only by giving up after three rate-limited
      attempts of its own pass or by a missing last close, and the stop
      names it. */
  lemma TickerStepCause(env: Env)
    ensures StopsWithCause(Steps(env))
    ensures GivesUpWhenLimited(Steps(env), env.fetch)
  {
  }

  /** For any loop whose stops name their cause: it ends normally only after
      every ticker, an early end happens at the last ticker processed, and
      giving up there means that pass's attempts were all rate limited. */
  lemma RunStops(tickers: seq<string>, step: (nat, string) -> TickerResult, fetch: nat -> string -> (nat -> FetchOutcome))
    requires StopsWithCause(step) && GivesUpWhenLimited(step, fetch)
    ensures var run := RunOf(tickers, step, 0);
      && (run.status == Completed ==> run.deleted == tickers)
      && (run.status.GaveUpOn? ==>
            (run.deleted != [] && run.status.ticker == run.deleted[|run.deleted| - 1]
             && RetryOutcome(fetch(|run.deleted| - 1)(run.status.ticker)) == GaveUp))
      && (run.status.CloseMissing? ==>
            (run.deleted != [] && run.status.ticker == run.deleted[|run.deleted| - 1]))
  {
    RunEndsAtStop(tickers, step, 0);
  }

  /** The job ends normally only after every selected ticker. An early end
      happens at the last ticker whose rows were deleted, so no later ticker
      is touched; giving up means all three attempts of that ticker's own
      pass were rate limited. */
  lemma CacheRunStops(tickers: seq<string>, env: Env)
    ensures var run := CacheRun(tickers, env);
      && (run.status == Completed ==> run.deleted == tickers)
      && (run.status.GaveUpOn? ==>
            (run.deleted != [] && run.status.ticker == run.deleted[|run.deleted| - 1]
             && RetryOutcome(env.fetch(|run.deleted| - 1)(run.status.ticker)) == GaveUp))
      && (run.status.CloseMissing? ==>
            (run.deleted != [] && run.status.ticker == run.deleted[|run.deleted| - 1]))
  {
    TickerStepCause(env);
    RunStops(tickers, Steps(env), env.fetch);
  }
}
