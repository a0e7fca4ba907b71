/** The `POST` handler of app/api/analyze-stock/route.js: normalise the
    fetched quotes, run the bull-appear scan when that indicator is enabled,
    and, when asked for, score each old-enough signal by whether the close
    `x` bars later is higher. Fetching, "today" and the cutoff date are given;
    the response is the JSON object's content. */
module AnalyzeStock {
  import opened JsValues
  import opened Seqs
  import opened StockData
  import opened IndicatorHelpers
  import opened Indicators
  import opened RealArith

  /** `date_pool`: the signal dates before the cutoff (`x` days before now)
      and not after now, in signal order. */
  function DatePool(dates: seq<int>, cutoff: int, now: int): seq<int>
  {
    Filter(dates, (d: int) => d < cutoff && d <= now)
  }

  /** `increasedPrice` for one pooled date: the first bar with that exact
      timestamp exists, so does the bar `x` later, and its close is higher
      (a `null` close counting as 0). */
  function IncreasedPrice(data: seq<Quote>, date: int, x: int): (r: bool)
    ensures r ==> exists i :: (0 <= i < |data| && 0 <= i + x < |data| && data[i].date == date
                               && Num(data[i + x].close) > Num(data[i].close))
  {
    var dateIndex := FindIndex(data, (entry: Quote) => entry.date == date);
    dateIndex != -1 && 0 <= dateIndex + x < |data| && Num(data[dateIndex + x].close) > Num(data[dateIndex].close)
  }

  function Outcomes(data: seq<Quote>, pool: seq<int>, x: int): (r: seq<bool>)
    ensures |r| == |pool|
  {
    seq(|pool|, i requires 0 <= i < |pool| => IncreasedPrice(data, pool[i], x))
  }

  /** The number of `true` outcomes. */
  function Wins(outcomes: seq<bool>): (r: nat)
    ensures r <= |outcomes|
  {
    |Filter(outcomes, (b: bool) => b)|
  }

  /** A number in the JSON response: 0/0 is NaN. */
  datatype WinRate = NotANumber | Percent(value: real)

  /** `wins / pool.length * 100`. */
  function WinRateOf(outcomes: seq<bool>): (r: WinRate)
    ensures r.NotANumber? <==> |outcomes| == 0
    ensures r.Percent? ==> 0.0 <= r.value <= 100.0
  {
    if |outcomes| == 0 then NotANumber
    else
      var w := Wins(outcomes) as real;
      var n := |outcomes| as real;
      DivAtMostOne(w, n);
      DivNonNegative(w, n);
      Percent(w / n * 100.0)
  }

  /** The response body: `{ dates }` or `{ dates, winRate }`. */
  datatype Response = Response(dates: seq<int>, winRate: Option<WinRate>)

  /** The handler. `fetched` is the chart result's quotes, `None` when the
      fetch threw (then `data` is `null`). */
  ghost function Post(fetched: Option<seq<Quote>>, apexBullAppear: bool, showWinRate: bool,
                      x: int, cutoff: int, now: int, year: int -> nat): (r: Response)
    ensures !apexBullAppear ==> r.dates == []
    ensures r.winRate.Some? <==> showWinRate
    ensures showWinRate ==> r.winRate.value.NotANumber? == (DatePool(r.dates, cutoff, now) == [])
  {
    var data := if fetched.None? then None else Some(ConvertToHistoricalResult(fetched.value));
    var dates := if apexBullAppear then ApexBullAppear(data, year, showWinRate) else [];
    if showWinRate then
      var pool := DatePool(dates, cutoff, now);
      var quotes := if data.None? then [] else data.value;
      Response(dates, Some(WinRateOf(Outcomes(quotes, pool, x))))
    else
      Response(dates, None)
  }

  /** The pool holds exactly the signal dates before the cutoff and not
      after now, in their signal order: it is picked out of `dates` by the
      positions `idx`, and position `j` is picked iff its date qualifies, so
      a date signalled twice is pooled (and scored) twice. */
  lemma DatePoolExact(dates: seq<int>, cutoff: int, now: int, d: int) returns (idx: seq<int>)
    ensures d in DatePool(dates, cutoff, now) <==> d in dates && d < cutoff && d <= now
    ensures SelectedBy(DatePool(dates, cutoff, now), dates, idx)
    ensures forall j :: 0 <= j < |dates| ==> (j in idx <==> dates[j] < cutoff && dates[j] <= now)
  {
    if d in dates && d < cutoff && d <= now {
      FilterKeeps(dates, (d: int) => d < cutoff && d <= now, d);
    }
    idx := FilterSelects(dates, (d: int) => d < cutoff && d <= now);
  }

  /** Bar `i` is the first bar stamped exactly `date`. */
  ghost predicate FirstBarOn(data: seq<Quote>, date: int, i: int)
  {
    0 <= i < |data| && data[i].date == date && forall j :: 0 <= j < i ==> data[j].date != date
  }

  /** A pooled date scores iff its first matching bar and the bar `x` later
      both exist and the close rose; a date with no matching bar scores
      false. */
  lemma IncreasedPriceExact(data: seq<Quote>, date: int, x: int)
    ensures IncreasedPrice(data, date, x) <==>
      exists i :: FirstBarOn(data, date, i) && 0 <= i + x < |data| && Num(data[i + x].close) > Num(data[i].close)
    ensures (forall i :: 0 <= i < |data| ==> data[i].date != date) ==> !IncreasedPrice(data, date, x)
  {
    var dateIndex := FindIndex(data, (entry: Quote) => entry.date == date);
    if dateIndex != -1 {
      assert FirstBarOn(data, date, dateIndex);
      forall i | FirstBarOn(data, date, i) ensures i == dateIndex {
      }
    } else {
      forall i | 0 <= i < |data| ensures !FirstBarOn(data, date, i) {
        assert data[i].date != date;
      }
    }
  }

  /** For a non-empty pool the win rate is a percentage between 0 and 100
      with `rate * pool = 100 * wins`; an empty pool gives NaN. */
  lemma WinRateRange(outcomes: seq<bool>)
    ensures |outcomes| == 0 <==> WinRateOf(outcomes) == NotANumber
    ensures WinRateOf(outcomes).Percent? ==>
      && 0.0 <= WinRateOf(outcomes).value <= 100.0
      && WinRateOf(outcomes).value * |outcomes| as real == 100.0 * Wins(outcomes) as real
  {
    if |outcomes| > 0 {
      var w := Wins(outcomes) as real;
      var n := |outcomes| as real;
      DivMul(w, n);
      DivAtMostOne(w, n);
      DivNonNegative(w, n);
    }
  }

  lemma {:induction false} WinsAll(outcomes: seq<bool>)
    ensures (forall i :: 0 <= i < |outcomes| ==> outcomes[i]) ==> Wins(outcomes) == |outcomes|
    ensures (forall i :: 0 <= i < |outcomes| ==> !outcomes[i]) ==> Wins(outcomes) == 0
  {
    if forall i :: 0 <= i < |outcomes| ==> outcomes[i] {
      FilterAll(outcomes, (b: bool) => b);
    }
    if forall i :: 0 <= i < |outcomes| ==> !outcomes[i] {
      FilterNone(outcomes, (b: bool) => b);
    }
  }

  /** Every pooled date scoring gives 100; none scoring gives 0. */
  lemma WinRateExtremes(outcomes: seq<bool>)
    requires |outcomes| > 0
    ensures (forall i :: 0 <= i < |outcomes| ==> outcomes[i]) ==> WinRateOf(outcomes) == Percent(100.0)
    ensures (forall i :: 0 <= i < |outcomes| ==> !outcomes[i]) ==> WinRateOf(outcomes) == Percent(0.0)
  {
    WinsAll(outcomes);
    var n := |outcomes| as real;
    DivSelf(n);
    ZeroDiv(n);
  }

  /** `dates` stays empty unless the indicator is enabled; `winRate` is in
      the response iff it was asked for, and is then the rate over the pool. */
  lemma PostShape(fetched: Option<seq<Quote>>, apexBullAppear: bool, showWinRate: bool,
                  x: int, cutoff: int, now: int, year: int -> nat)
    ensures var r := Post(fetched, apexBullAppear, showWinRate, x, cutoff, now, year);
      && (!apexBullAppear ==> r.dates == [])
      && (r.winRate.Some? <==> showWinRate)
      && (showWinRate && DatePool(r.dates, cutoff, now) == [] ==> r.winRate == Some(NotANumber))
      && (r.winRate.Some? && r.winRate.value.Percent? ==> 0.0 <= r.winRate.value.value <= 100.0)
  {
    var r := Post(fetched, apexBullAppear, showWinRate, x, cutoff, now, year);
    if showWinRate {
      var data := if fetched.None? then None else Some(ConvertToHistoricalResult(fetched.value));
      var quotes := if data.None? then [] else data.value;
      WinRateRange(Outcomes(quotes, DatePool(r.dates, cutoff, now), x));
    }
  }

  /** A failed fetch (`data` is `null`) yields no dates, so the pool is
      empty and `findIndex` is never reached on `null`. */
  lemma FailedFetchNoDates(apexBullAppear: bool, showWinRate: bool, x: int, cutoff: int, now: int, year: int -> nat)
    ensures Post(None, apexBullAppear, showWinRate, x, cutoff, now, year).dates == []
  {
    assert WallabyPositions([]) == [];
    assert LowInflexionPoints([]) == [];
  }
}
