/** The bar pipeline helpers of utils/indicator_helpers.js: two-day
    aggregation per calendar year, trailing simple moving averages written
    into each bar, five-bar low inflexion points and bear-trap validation. */
module IndicatorHelpers {
  import opened JsValues
  import opened Seqs
  import opened StockData
  import opened RealArith

  /** An aggregated two-day bar. `smas` holds the `SMA_<p>` properties that
      `calculateSMA` adds, keyed by the period `p`; a fresh bar has none. */
  datatype AggBar = AggBar(
    date: int,
    high: real,
    low: real,
    open: Option<real>,
    close: Option<real>,
    smas: map<nat, Option<real>>)

  function Max(a: real, b: real): real { if a < b then b else a }
  function Min(a: real, b: real): real { if a < b then a else b }

  // ---------------------------------------------------------------------
  // Two-day aggregation (get2DayAggregatedData)
  // ---------------------------------------------------------------------

  /** The input after `data.forEach(d => d.Date = new Date(d.date))`. */
  function Stamp(quotes: seq<Quote>): (r: seq<Quote>)
  {
    seq(|quotes|, i requires 0 <= i < |quotes| => quotes[i].(parsedDate := Some(quotes[i].date)))
  }

  /** The bar built from `day1` and `day2`. `Math.max`/`Math.min` convert a
      `null` high or low to 0. The date is `day1.Date`, the parsed copy of
      `day1.date`. */
  function Pair(day1: Quote, day2: Quote): AggBar
  {
    AggBar(day1.date, Max(Num(day1.high), Num(day2.high)), Min(Num(day1.low), Num(day2.low)),
           day1.open, day2.close, map[])
  }

  /** The bars of one year, taken two at a time; an odd last bar pairs with
      itself. */
  function PairUp(yearly: seq<Quote>): (r: seq<AggBar>)
    ensures |r| == (|yearly| + 1) / 2
    decreases |yearly|
  {
    if |yearly| == 0 then []
    else if |yearly| == 1 then [Pair(yearly[0], yearly[0])]
    else [Pair(yearly[0], yearly[1])] + PairUp(yearly[2..])
  }

  /** The quotes whose calendar year is `y`, in input order. */
  function YearGroup(quotes: seq<Quote>, year: int -> nat, y: int): seq<Quote>
  {
    Filter(quotes, (q: Quote) => year(q.date) == y)
  }

  function YearsOf(quotes: seq<Quote>, year: int -> nat): set<int>
  {
    set q | q in quotes :: year(q.date)
  }

  lemma SingletonRest(ys: set<int>, x: int)
    requires x in ys && ys - {x} == {}
    ensures ys == {x}
  {
    assert ys == (ys - {x}) + {x};
  }

  lemma {:induction false} HasLeast(ys: set<int>)
    requires ys != {}
    ensures exists m :: m in ys && forall z :: z in ys ==> m <= z
    decreases ys
  {
    if forall x :: x !in ys {
      assert false;
    }
    var x :| x in ys;
    var rest := ys - {x};
    if rest == {} {
      SingletonRest(ys, x);
      assert forall z :: z in ys ==> x <= z;
    } else {
      HasLeast(rest);
      var m :| m in rest && forall z :: z in rest ==> m <= z;
      var least := if x < m then x else m;
      forall z | z in ys ensures least <= z {
        if z != x { assert z in rest; }
      }
      assert least in ys;
    }
  }

  /** The order in which `for (const year in yearlyData)` visits the year
      keys. Array-index property names (integers from 0 to 2^32 - 2) are
      enumerated first, in ascending order; every year here is such a key,
      because `year` returns a `nat` and a JavaScript date's year is far below
      2^32. */
  ghost function AscendingYears(ys: set<int>): (r: seq<int>)
    ensures forall y :: y in r <==> y in ys
    decreases ys
  {
    if ys == {} then []
    else
      HasLeast(ys);
      var m :| m in ys && forall z :: z in ys ==> m <= z;
      [m] + AscendingYears(ys - {m})
  }

  lemma AscendingYearsStep(ys: set<int>, y: int)
    requires y in ys && forall z :: z in ys ==> y <= z
    ensures AscendingYears(ys) == [y] + AscendingYears(ys - {y})
  {
  }

  /** The `yearlyData` object the grouping `reduce` builds: one key per year
      present, holding that year's quotes in input order. */
  function GroupMap(quotes: seq<Quote>, year: int -> nat): map<int, seq<Quote>>
  {
    map y | y in YearsOf(quotes, year) :: YearGroup(quotes, year, y)
  }

  /** The yearly results for the years `ys`, concatenated in that order. */
  function JoinYears(yearlyData: map<int, seq<Quote>>, ys: seq<int>): seq<AggBar>
  {
    if ys == [] then []
    else
      var y := ys[|ys| - 1];
      JoinYears(yearlyData, ys[..|ys| - 1]) + (if y in yearlyData then PairUp(yearlyData[y]) else [])
  }

  /** What `get2DayAggregatedData` returns for the (stamped) quotes. */
  ghost function Aggregated(quotes: seq<Quote>, year: int -> nat): seq<AggBar>
  {
    var yearlyData := GroupMap(quotes, year);
    JoinYears(yearlyData, AscendingYears(yearlyData.Keys))
  }

  /** `data.forEach(d => d.Date = new Date(d.date))`: the input quotes are
      changed in place. */
  method StampDates(data: array<Quote>)
    modifies data
    ensures data[..] == Stamp(old(data[..]))
  {
    for i := 0 to data.Length
      invariant forall j :: 0 <= j < i ==> data[j] == old(data[j]).(parsedDate := Some(old(data[j]).date))
      invariant forall j :: i <= j < data.Length ==> data[j] == old(data[j])
    {
      data[i] := data[i].(parsedDate := Some(data[i].date));
    }
  }

  /** The `reduce` that groups the quotes by calendar year: one key per year
      present, holding that year's quotes in input order. */
  method GroupByYear(data: array<Quote>, year: int -> nat) returns (yearlyData: map<int, seq<Quote>>)
    ensures yearlyData == GroupMap(data[..], year)
  {
    yearlyData := map[];
    for i := 0 to data.Length
      invariant yearlyData == GroupMap(data[..i], year)
    {
      var curr := data[i];
      var y := year(curr.date);
      assert data[..i + 1] == data[..i] + [curr];
      GroupMapAppend(data[..i], curr, year);
      if y !in yearlyData {
        yearlyData := yearlyData[y := []];
      }
      yearlyData := yearlyData[y := yearlyData[y] + [curr]];
    }
    assert data[..data.Length] == data[..];
  }


  lemma YearGroupAppend(quotes: seq<Quote>, q: Quote, year: int -> nat)
    ensures YearsOf(quotes + [q], year) == YearsOf(quotes, year) + {year(q.date)}
    ensures forall y ::
      YearGroup(quotes + [q], year, y) == YearGroup(quotes, year, y) + (if year(q.date) == y then [q] else [])
  {
    assert (quotes + [q])[..|quotes|] == quotes;
  }

  lemma YearGroupAbsent(quotes: seq<Quote>, year: int -> nat, y: int)
    requires y !in YearsOf(quotes, year)
    ensures YearGroup(quotes, year, y) == []
  {
    FilterNone(quotes, (q: Quote) => year(q.date) == y);
  }
  /** Filing one more quote adds it at the end of its year's list, creating
      the list when the year is new. */
  lemma GroupMapAppend(quotes: seq<Quote>, q: Quote, year: int -> nat)
    ensures var m := GroupMap(quotes, year);
      var y := year(q.date);
      GroupMap(quotes + [q], year) == m[y := (if y in m then m[y] else []) + [q]]
  {
    var m := GroupMap(quotes, year);
    var y := year(q.date);
    var grown := GroupMap(quotes + [q], year);
    var expected := m[y := (if y in m then m[y] else []) + [q]];
    YearGroupAppend(quotes, q, year);
    if y !in YearsOf(quotes, year) {
      YearGroupAbsent(quotes, year, y);
    }
    assert grown.Keys == expected.Keys;
    forall z | z in grown ensures grown[z] == expected[z] {
      assert YearGroup(quotes + [q], year, z) == YearGroup(quotes, year, z) + (if y == z then [q] else []);
    }
    assert grown == expected;
  }


  /** The step-2 loop over one year's quotes. */
  method AggregateYear(yearly: seq<Quote>) returns (aggregatedYearData: seq<AggBar>)
    ensures aggregatedYearData == PairUp(yearly)
  {
    aggregatedYearData := [];
    var i := 0;
    assert From(yearly, 0) == yearly;
    while i < |yearly|
      invariant i <= |yearly| + 1
      invariant aggregatedYearData + PairUp(From(yearly, i)) == PairUp(yearly)
    {
      var day1 := yearly[i];
      var day2 := if i + 1 < |yearly| then yearly[i + 1] else day1;
      PairUpStep(yearly, i);
      ConcatAssoc(aggregatedYearData, Pair(day1, day2), PairUp(From(yearly, i + 2)));
      aggregatedYearData := aggregatedYearData + [Pair(day1, day2)];
      i := i + 2;
    }
    assert PairUp(From(yearly, i)) == [];
    assert aggregatedYearData + [] == aggregatedYearData;
  }

  /** The quotes from position `i` on; none once `i` is past the end. */
  function From(yearly: seq<Quote>, i: nat): (r: seq<Quote>)
    ensures |r| == if i <= |yearly| then |yearly| - i else 0
  {
    if i <= |yearly| then yearly[i..] else []
  }

  /** One turn of `AggregateYear`: the pairing from `i` starts with the pair
      at `i` and goes on with the pairing from `i + 2`. */
  lemma PairUpStep(yearly: seq<Quote>, i: nat)
    requires i < |yearly|
    ensures PairUp(From(yearly, i)) ==
      [Pair(yearly[i], if i + 1 < |yearly| then yearly[i + 1] else yearly[i])] + PairUp(From(yearly, i + 2))
  {
    if i + 1 < |yearly| {
      assert yearly[i..][2..] == yearly[i + 2..];
    }
  }

  /** `get2DayAggregatedData`: stamps `Date` into every input quote, groups the
      quotes by year and pairs them up year by year, years ascending. `null` or
      empty input gives an empty result and is left untouched. */
  method Get2DayAggregatedData(data: array?<Quote>, year: int -> nat) returns (agg: array<AggBar>)
    modifies data
    ensures fresh(agg)
    ensures data == null ==> agg[..] == []
    ensures data != null ==>
      && data[..] == (if data.Length == 0 then old(data[..]) else Stamp(old(data[..])))
      && agg[..] == Aggregated(data[..], year)
  {
    if data == null || data.Length == 0 {
      agg := new AggBar[0];
      assert data != null ==> data[..] == [] && Aggregated(data[..], year) == [];
      return;
    }
    StampDates(data);
    var yearlyData := GroupByYear(data, year);
    var aggregatedDataList := AggregateInYearOrder(yearlyData);
    agg := new AggBar[|aggregatedDataList|](j requires 0 <= j < |aggregatedDataList| => aggregatedDataList[j]);
  }

  lemma ConcatAssoc<T>(a: seq<T>, y: T, b: seq<T>)
    ensures a + ([y] + b) == (a + [y]) + b
  {
  }

  /** One turn of the loop over the years: the least remaining year is the
      next one in ascending order. */
  lemma AdvanceYear(yearlyData: map<int, seq<Quote>>, remaining: set<int>, done: seq<int>, y: int)
    requires y in remaining && forall z :: z in remaining ==> y <= z
    requires AscendingYears(yearlyData.Keys) == done + AscendingYears(remaining)
    ensures AscendingYears(yearlyData.Keys) == (done + [y]) + AscendingYears(remaining - {y})
    ensures JoinYears(yearlyData, done + [y])
      == JoinYears(yearlyData, done) + (if y in yearlyData then PairUp(yearlyData[y]) else [])
  {
    AscendingYearsStep(remaining, y);
    ConcatAssoc(done, y, AscendingYears(remaining - {y}));
    assert (done + [y])[..|done|] == done;
  }

  /** `for (const year in yearlyData)`: integer-like keys are visited in
      ascending order, each year's bars appended after the previous years'. */
  method AggregateInYearOrder(yearlyData: map<int, seq<Quote>>) returns (aggregatedDataList: seq<AggBar>)
    ensures aggregatedDataList == JoinYears(yearlyData, AscendingYears(yearlyData.Keys))
  {
    aggregatedDataList := [];
    var remaining := yearlyData.Keys;
    ghost var done: seq<int> := [];
    while remaining != {}
      invariant remaining <= yearlyData.Keys
      invariant AscendingYears(yearlyData.Keys) == done + AscendingYears(remaining)
      invariant aggregatedDataList == JoinYears(yearlyData, done)
      decreases remaining
    {
      HasLeast(remaining);
      var y :| y in remaining && forall z :: z in remaining ==> y <= z;
      var aggregatedYearData := AggregateYear(yearlyData[y]);
      aggregatedDataList := aggregatedDataList + aggregatedYearData;
      AdvanceYear(yearlyData, remaining, done, y);
      done := done + [y];
      remaining := remaining - {y};
    }
    assert AscendingYears(remaining) == [];
    assert done + [] == done;
  }

  // Properties of the aggregation

  /** Bar `k` of a year's result is built from quotes `2k` and `2k+1` of that
      year (quote `2k` twice when it is the odd last one): date and open from
      the first, close from the second, the higher high and the lower low. */
  lemma {:induction false} PairUpAt(yearly: seq<Quote>, k: nat)
    requires k < (|yearly| + 1) / 2
    ensures var b := PairUp(yearly)[k];
      var day1 := yearly[2 * k];
      var day2 := if 2 * k + 1 < |yearly| then yearly[2 * k + 1] else day1;
      && b.date == day1.date && b.open == day1.open && b.close == day2.close
      && b.high == Max(Num(day1.high), Num(day2.high))
      && b.low == Min(Num(day1.low), Num(day2.low))
      && b.smas == map[]
    decreases |yearly|
  {
    if k > 0 {
      PairUpAt(yearly[2..], k - 1);
    }
  }

  /** The aggregated bars that fall in calendar year `y`, in order. */
  function BarsInYear(bars: seq<AggBar>, year: int -> nat, y: int): seq<AggBar>
  {
    Filter(bars, (b: AggBar) => year(b.date) == y)
  }

  ghost predicate GroupsConsistent(yearlyData: map<int, seq<Quote>>, year: int -> nat)
  {
    forall y, q :: y in yearlyData && q in yearlyData[y] ==> year(q.date) == y
  }

  lemma GroupMapConsistent(quotes: seq<Quote>, year: int -> nat)
    ensures GroupsConsistent(GroupMap(quotes, year), year)
  {
  }

  lemma PairUpYears(yearly: seq<Quote>, year: int -> nat, y: int)
    requires forall q :: q in yearly ==> year(q.date) == y
    ensures forall b :: b in PairUp(yearly) ==> year(b.date) == y
  {
    forall b | b in PairUp(yearly) ensures year(b.date) == y {
      var k :| 0 <= k < |PairUp(yearly)| && PairUp(yearly)[k] == b;
      PairUpAt(yearly, k);
      assert yearly[2 * k] in yearly;
    }
  }

  ghost predicate StrictlyAscending(ys: seq<int>)
  {
    forall a, b :: 0 <= a < b < |ys| ==> ys[a] < ys[b]
  }

  /** The calendar year never decreases along `bars`. */
  ghost predicate YearsNonDecreasing(bars: seq<AggBar>, year: int -> nat)
  {
    forall i, j :: 0 <= i < j < |bars| ==> year(bars[i].date) <= year(bars[j].date)
  }

  /** The years are visited in strictly ascending order. */
  lemma {:induction false} AscendingYearsSorted(ys: set<int>)
    ensures StrictlyAscending(AscendingYears(ys))
    decreases ys
  {
    if ys != {} {
      var r := AscendingYears(ys);
      var m := r[0];
      assert m in ys && forall z :: z in ys ==> m <= z;
      AscendingYearsStep(ys, m);
      AscendingYearsSorted(ys - {m});
      forall a, b | 0 <= a < b < |r| ensures r[a] < r[b] {
        if a == 0 {
          assert r[b] in ys - {m};
        }
      }
    }
  }

  /** The bars of one year's pairs that fall in year `y`. */
  lemma PairsInYear(yearlyData: map<int, seq<Quote>>, last: int, year: int -> nat, y: int)
    requires GroupsConsistent(yearlyData, year)
    ensures BarsInYear(if last in yearlyData then PairUp(yearlyData[last]) else [], year, y)
      == if last == y && last in yearlyData then PairUp(yearlyData[last]) else []
  {
    var tail := if last in yearlyData then PairUp(yearlyData[last]) else [];
    if last in yearlyData {
      PairUpYears(yearlyData[last], year, last);
    }
    if last == y {
      FilterAll(tail, (b: AggBar) => year(b.date) == y);
    } else {
      FilterNone(tail, (b: AggBar) => year(b.date) == y);
    }
  }

  lemma AscendingSplit(ys: seq<int>)
    requires ys != [] && StrictlyAscending(ys)
    ensures StrictlyAscending(ys[..|ys| - 1])
    ensures ys[|ys| - 1] !in ys[..|ys| - 1]
  {
    var n := |ys| - 1;
    forall i | 0 <= i < n ensures ys[..n][i] != ys[n] {
      assert ys[i] < ys[n];
    }
  }

  lemma MembershipSplit(ys: seq<int>, y: int)
    requires ys != []
    ensures y in ys <==> y in ys[..|ys| - 1] || y == ys[|ys| - 1]
  {
    assert ys == ys[..|ys| - 1] + [ys[|ys| - 1]];
  }

  lemma JoinYearsSplit(yearlyData: map<int, seq<Quote>>, ys: seq<int>, year: int -> nat, y: int)
    requires ys != []
    ensures var last := ys[|ys| - 1];
      BarsInYear(JoinYears(yearlyData, ys), year, y)
        == BarsInYear(JoinYears(yearlyData, ys[..|ys| - 1]), year, y)
         + BarsInYear(if last in yearlyData then PairUp(yearlyData[last]) else [], year, y)
  {
    var last := ys[|ys| - 1];
    var tail := if last in yearlyData then PairUp(yearlyData[last]) else [];
    FilterConcat(JoinYears(yearlyData, ys[..|ys| - 1]), tail, (b: AggBar) => year(b.date) == y);
  }

  lemma {:induction false} JoinYearsFilter(yearlyData: map<int, seq<Quote>>, ys: seq<int>, year: int -> nat, y: int)
    requires GroupsConsistent(yearlyData, year)
    requires StrictlyAscending(ys)
    ensures BarsInYear(JoinYears(yearlyData, ys), year, y)
      == if y in ys && y in yearlyData then PairUp(yearlyData[y]) else []
    decreases |ys|
  {
    if ys != [] {
      var n := |ys| - 1;
      AscendingSplit(ys);
      JoinYearsFilter(yearlyData, ys[..n], year, y);
      JoinYearsSplit(yearlyData, ys, year, y);
      PairsInYear(yearlyData, ys[n], year, y);
      MembershipSplit(ys, y);
      ghost var H := BarsInYear(JoinYears(yearlyData, ys[..n]), year, y);
      ghost var T := BarsInYear(if ys[n] in yearlyData then PairUp(yearlyData[ys[n]]) else [], year, y);
      assert BarsInYear(JoinYears(yearlyData, ys), year, y) == H + T;
      if y == ys[n] {
        assert y !in ys[..n];
        assert H == [];
        assert H + T == T;
      } else {
        assert T == [];
        assert H + T == H;
      }
    }
  }

  /** Each calendar year with `n` quotes contributes exactly its own `ceil(n/2)`
      pairs to the result, and nothing else falls in that year. */
  lemma AggregatedPerYear(quotes: seq<Quote>, year: int -> nat, y: int)
    ensures BarsInYear(Aggregated(quotes, year), year, y) == PairUp(YearGroup(quotes, year, y))
    ensures |BarsInYear(Aggregated(quotes, year), year, y)| == (|YearGroup(quotes, year, y)| + 1) / 2
  {
    var yearlyData := GroupMap(quotes, year);
    GroupMapConsistent(quotes, year);
    AscendingYearsSorted(yearlyData.Keys);
    JoinYearsFilter(yearlyData, AscendingYears(yearlyData.Keys), year, y);
    if y !in YearsOf(quotes, year) {
      YearGroupAbsent(quotes, year, y);
    }
  }

  /** Bars of earlier years followed by bars of year `last` keep the years
      non-decreasing. */
  lemma ConcatNonDecreasing(head: seq<AggBar>, tail: seq<AggBar>, year: int -> nat, last: int)
    requires YearsNonDecreasing(head, year)
    requires forall b :: b in head ==> year(b.date) < last
    requires forall b :: b in tail ==> year(b.date) == last
    ensures YearsNonDecreasing(head + tail, year)
  {
    var r := head + tail;
    forall i, j | 0 <= i < j < |r| ensures year(r[i].date) <= year(r[j].date) {
      if j < |head| {
        assert r[i] == head[i] && r[j] == head[j];
      } else if i < |head| {
        assert r[i] == head[i] && r[j] == tail[j - |head|];
        assert r[i] in head && r[j] in tail;
      } else {
        assert r[i] == tail[i - |head|] && r[j] == tail[j - |head|];
        assert r[i] in tail && r[j] in tail;
      }
    }
  }

  lemma {:induction false} JoinYearsOrdered(yearlyData: map<int, seq<Quote>>, ys: seq<int>, year: int -> nat)
    requires GroupsConsistent(yearlyData, year)
    requires StrictlyAscending(ys)
    ensures forall b :: b in JoinYears(yearlyData, ys) ==> year(b.date) in ys
    ensures YearsNonDecreasing(JoinYears(yearlyData, ys), year)
    decreases |ys|
  {
    if ys != [] {
      var n := |ys| - 1;
      var last := ys[n];
      var front := ys[..n];
      var head := JoinYears(yearlyData, front);
      var tail := if last in yearlyData then PairUp(yearlyData[last]) else [];
      AscendingSplit(ys);
      JoinYearsOrdered(yearlyData, front, year);
      assert JoinYears(yearlyData, ys) == head + tail;
      if last in yearlyData {
        PairUpYears(yearlyData[last], year, last);
      }
      forall b | b in head ensures year(b.date) < last && year(b.date) in ys {
        var i :| 0 <= i < n && front[i] == year(b.date);
        assert ys[i] < ys[n];
      }
      ConcatNonDecreasing(head, tail, year, last);
    }
  }

  /** The years are concatenated in ascending order: the calendar year of the
      aggregated bars never decreases along the result. */
  lemma AggregatedYearsAscending(quotes: seq<Quote>, year: int -> nat)
    ensures YearsNonDecreasing(Aggregated(quotes, year), year)
  {
    var yearlyData := GroupMap(quotes, year);
    GroupMapConsistent(quotes, year);
    AscendingYearsSorted(yearlyData.Keys);
    JoinYearsOrdered(yearlyData, AscendingYears(yearlyData.Keys), year);
  }

  /** Quotes that all fall in one calendar year aggregate to `ceil(n/2)` bars,
      the year's quotes taken two at a time. */
  lemma AggregatedSingleYear(quotes: seq<Quote>, year: int -> nat, y: int)
    requires forall q :: q in quotes ==> year(q.date) == y
    ensures Aggregated(quotes, year) == PairUp(quotes)
    ensures |Aggregated(quotes, year)| == (|quotes| + 1) / 2
  {
    var yearlyData := GroupMap(quotes, year);
    var agg := Aggregated(quotes, year);
    GroupMapConsistent(quotes, year);
    AscendingYearsSorted(yearlyData.Keys);
    JoinYearsOrdered(yearlyData, AscendingYears(yearlyData.Keys), year);
    assert forall b :: b in agg ==> year(b.date) == y;
    FilterAll(agg, (b: AggBar) => year(b.date) == y);
    FilterAll(quotes, (q: Quote) => year(q.date) == y);
    AggregatedPerYear(quotes, year, y);
  }

  /** A single quote pairs with itself: one bar with that quote's prices. */
  lemma AggregatedSingleQuote(q: Quote, year: int -> nat)
    ensures Aggregated([q], year) == [AggBar(q.date, Num(q.high), Num(q.low), q.open, q.close, map[])]
  {
    AggregatedSingleYear([q], year, year(q.date));
  }

  // ---------------------------------------------------------------------
  // Trailing simple moving averages (calculateSMA)
  // ---------------------------------------------------------------------

  /** The `Close` column of the bars. */
  function Closes(bars: seq<AggBar>): (r: seq<Option<real>>)
    ensures |r| == |bars| && forall i :: 0 <= i < |bars| ==> r[i] == bars[i].close
  {
    seq(|bars|, i requires 0 <= i < |bars| => bars[i].close)
  }

  /** `reduce((acc, curr) => acc + curr.Close, 0)`: a left-to-right sum in
      which a `null` close adds 0. */
  function Sum(window: seq<Option<real>>): real
  {
    if window == [] then 0.0 else Sum(window[..|window| - 1]) + Num(window[|window| - 1])
  }

  /** `calculateSMAForPeriod(data, period)[index]`: `null` before the first
      full window, otherwise the mean close of the `period` bars ending at
      `index`. */
  function SmaAt(bars: seq<AggBar>, period: nat, index: nat): (r: Option<real>)
    requires 1 <= period && index < |bars|
    ensures r.None? <==> index < period - 1
    ensures r.Some? ==> r.value * period as real == Sum(Closes(bars)[index - period + 1 .. index + 1])
  {
    if index < period - 1 then None
    else
      var sum := Sum(Closes(bars)[index - period + 1 .. index + 1]);
      DivMul(sum, period as real);
      Some(sum / period as real)
  }

  /** Every bar gains the property `SMA_<period>`; nothing else changes. */
  function AddSma(bars: seq<AggBar>, period: nat): seq<AggBar>
    requires 1 <= period
  {
    seq(|bars|, i requires 0 <= i < |bars| =>
      bars[i].(smas := bars[i].smas[period := SmaAt(bars, period, i)]))
  }

  /** The bars after `periods.forEach(...)`: one `AddSma` per period, in order. */
  function WithSmas(bars: seq<AggBar>, periods: seq<nat>): (r: seq<AggBar>)
    requires forall k :: 0 <= k < |periods| ==> 1 <= periods[k]
    ensures |r| == |bars|
  {
    if periods == [] then bars
    else AddSma(WithSmas(bars, periods[..|periods| - 1]), periods[|periods| - 1])
  }

  /** `calculateSMA(stockData, periods)`: writes the SMA properties into the
      entries of the array it is given and returns that same array. */
  method CalculateSma(stockData: array<AggBar>, periods: seq<nat>) returns (r: array<AggBar>)
    requires forall k :: 0 <= k < |periods| ==> 1 <= periods[k]
    modifies stockData
    ensures r == stockData
    ensures stockData[..] == WithSmas(old(stockData[..]), periods)
  {
    for j := 0 to |periods|
      invariant stockData[..] == WithSmas(old(stockData[..]), periods[..j])
    {
      AddSmaInPlace(stockData, periods[j]);
      assert periods[..j + 1][..j] == periods[..j];
    }
    assert periods[..|periods|] == periods;
    r := stockData;
  }

  /** One turn of `periods.forEach`: `calculateSMAForPeriod` computes every
      value first, then each entry gets its `SMA_<period>` property. */
  method AddSmaInPlace(stockData: array<AggBar>, period: nat)
    requires 1 <= period
    modifies stockData
    ensures stockData[..] == AddSma(old(stockData[..]), period)
  {
    ghost var before := stockData[..];
    var smaValues := seq(stockData.Length, i requires 0 <= i < stockData.Length reads stockData =>
      SmaAt(stockData[..], period, i));
    for index := 0 to stockData.Length
      invariant forall k :: 0 <= k < index ==>
        stockData[k] == before[k].(smas := before[k].smas[period := smaValues[k]])
      invariant forall k :: index <= k < stockData.Length ==> stockData[k] == before[k]
    {
      stockData[index] := stockData[index].(smas := stockData[index].smas[period := smaValues[index]]);
    }
  }

  lemma {:induction false} SumBounds(window: seq<Option<real>>, lo: real, hi: real)
    requires forall k :: 0 <= k < |window| ==> lo <= Num(window[k]) <= hi
    ensures |window| as real * lo <= Sum(window) <= |window| as real * hi
    decreases |window|
  {
    if window != [] {
      SumBounds(window[..|window| - 1], lo, hi);
    }
  }

  /** A defined SMA lies between the lowest and the highest close of its
      window (a `null` close counting as 0). */
  lemma SmaWithinCloses(bars: seq<AggBar>, period: nat, index: nat, lo: real, hi: real)
    requires 1 <= period && period - 1 <= index < |bars|
    requires forall k :: index - period < k <= index ==> lo <= Num(bars[k].close) <= hi
    ensures SmaAt(bars, period, index).Some?
    ensures lo <= SmaAt(bars, period, index).value <= hi
  {
    var window := Closes(bars)[index - period + 1 .. index + 1];
    forall k | 0 <= k < |window| ensures lo <= Num(window[k]) <= hi {
      assert window[k] == bars[index - period + 1 + k].close;
    }
    SumBounds(window, lo, hi);
    MeanBounds(Sum(window), period as real, lo, hi);
  }

  lemma MeanBounds(s: real, p: real, lo: real, hi: real)
    requires 0.0 < p && p * lo <= s <= p * hi
    ensures lo <= s / p <= hi
  {
    assert s / p * p == s;
  }

  /** For a constant close series every defined SMA is that constant. */
  lemma ConstantCloseSma(bars: seq<AggBar>, period: nat, index: nat, c: real)
    requires 1 <= period && index < |bars|
    requires forall k :: 0 <= k < |bars| ==> Num(bars[k].close) == c
    ensures SmaAt(bars, period, index) == if index < period - 1 then None else Some(c)
  {
    if period - 1 <= index {
      SmaWithinCloses(bars, period, index, c, c);
    }
  }

  lemma {:induction false} WithSmasShape(bars: seq<AggBar>, periods: seq<nat>)
    requires forall k :: 0 <= k < |periods| ==> 1 <= periods[k]
    ensures |WithSmas(bars, periods)| == |bars|
    ensures Closes(WithSmas(bars, periods)) == Closes(bars)
    ensures forall i :: 0 <= i < |bars| ==> WithSmas(bars, periods)[i].(smas := bars[i].smas) == bars[i]
    decreases |periods|
  {
    if periods != [] {
      WithSmasShape(bars, periods[..|periods| - 1]);
      assert Closes(WithSmas(bars, periods)) == Closes(WithSmas(bars, periods[..|periods| - 1]));
    }
  }

  /** After `calculateSMA` every entry keeps its length, date, prices and
      earlier SMA properties of other periods, and holds, for each listed
      period, the SMA of the original closes. */
  lemma {:induction false} WithSmasValues(bars: seq<AggBar>, periods: seq<nat>, i: nat, p: nat)
    requires forall k :: 0 <= k < |periods| ==> 1 <= periods[k]
    requires i < |bars|
    ensures |WithSmas(bars, periods)| == |bars|
    ensures WithSmas(bars, periods)[i].(smas := bars[i].smas) == bars[i]
    ensures p in periods ==> p in WithSmas(bars, periods)[i].smas && WithSmas(bars, periods)[i].smas[p] == SmaAt(bars, p, i)
    ensures p !in periods ==> (p in WithSmas(bars, periods)[i].smas <==> p in bars[i].smas)
    ensures p !in periods && p in bars[i].smas ==> WithSmas(bars, periods)[i].smas[p] == bars[i].smas[p]
    decreases |periods|
  {
    WithSmasShape(bars, periods);
    if periods != [] {
      var front := periods[..|periods| - 1];
      WithSmasValues(bars, front, i, p);
      WithSmasShape(bars, front);
      var mid := WithSmas(bars, front);
      assert SmaAt(mid, periods[|periods| - 1], i) == SmaAt(bars, periods[|periods| - 1], i);
      assert p in periods <==> p in front || p == periods[|periods| - 1] by {
        assert periods == front + [periods[|periods| - 1]];
      }
    }
  }

  // ---------------------------------------------------------------------
  // Low inflexion points (getLowInflexionPoints)
  // ---------------------------------------------------------------------

  /** A potential bear trap: the date and low of a low inflexion bar. */
  datatype Trap = Trap(date: int, low: real)

  /** Bar `i`'s low is strictly below the lows of the two bars on each side. */
  predicate IsLowInflexion(bars: seq<AggBar>, i: int)
    requires 2 <= i < |bars| - 2
  {
    && bars[i - 1].low > bars[i].low
    && bars[i + 1].low > bars[i].low
    && bars[i - 2].low > bars[i].low
    && bars[i + 2].low > bars[i].low
  }

  /** The indices from `i` up to `|bars| - 3` that are low inflexions, in
      ascending order. */
  function InflexionScan(bars: seq<AggBar>, i: nat): (r: seq<nat>)
    requires 2 <= i
    ensures forall k :: 0 <= k < |r| ==> i <= r[k] < |bars| - 2 && IsLowInflexion(bars, r[k])
    ensures forall a, b :: 0 <= a < b < |r| ==> r[a] < r[b]
    decreases |bars| - i
  {
    if i >= |bars| - 2 then []
    else (if IsLowInflexion(bars, i) then [i] else []) + InflexionScan(bars, i + 1)
  }

  /** The indices `getLowInflexionPoints` reports. */
  function LowInflexionIndices(bars: seq<AggBar>): seq<nat>
  {
    if |bars| < 5 then [] else InflexionScan(bars, 2)
  }

  /** `getLowInflexionPoints(data)`: `{date, low}` of every low inflexion. */
  function LowInflexionPoints(bars: seq<AggBar>): (r: seq<Trap>)
    ensures |r| == |LowInflexionIndices(bars)|
    ensures forall k :: 0 <= k < |r| ==>
      var i := LowInflexionIndices(bars)[k]; i < |bars| && r[k] == Trap(bars[i].date, bars[i].low)
  {
    var idx := LowInflexionIndices(bars);
    seq(|idx|, k requires 0 <= k < |idx| => Trap(bars[idx[k]].date, bars[idx[k]].low))
  }

  lemma {:induction false} InflexionScanComplete(bars: seq<AggBar>, i: nat, j: int)
    requires 2 <= i <= j < |bars| - 2 && IsLowInflexion(bars, j)
    ensures j in InflexionScan(bars, i)
    decreases |bars| - i
  {
    if i < j {
      InflexionScanComplete(bars, i + 1, j);
    }
  }

  /** An index is reported iff it lies in `[2, |bars| - 3]` and is a low
      inflexion; with fewer than five bars nothing is reported. */
  lemma LowInflexionIndicesExact(bars: seq<AggBar>, i: int)
    ensures i in LowInflexionIndices(bars) <==> 2 <= i < |bars| - 2 && IsLowInflexion(bars, i)
    ensures |bars| < 5 ==> LowInflexionIndices(bars) == []
  {
    if 2 <= i < |bars| - 2 && IsLowInflexion(bars, i) {
      InflexionScanComplete(bars, 2, i);
    }
  }

  /** Two low inflexions are at least three bars apart, so the reported
      indices ascend in steps of three or more. */
  lemma LowInflexionsSpaced(bars: seq<AggBar>)
    ensures var r := LowInflexionIndices(bars);
      forall a, b :: 0 <= a < b < |r| ==> r[a] + 3 <= r[b]
  {
    var r := LowInflexionIndices(bars);
    forall a, b | 0 <= a < b < |r| ensures r[a] + 3 <= r[b] {
      var x, y := r[a], r[b];
      assert x < y && IsLowInflexion(bars, x) && IsLowInflexion(bars, y);
    }
  }

  /** A series whose lows never fall, or never rise, has no low inflexion. */
  lemma MonotoneLowsNoInflexion(bars: seq<AggBar>)
    requires || (forall i :: 0 < i < |bars| ==> bars[i - 1].low <= bars[i].low)
             || (forall i :: 0 < i < |bars| ==> bars[i].low <= bars[i - 1].low)
    ensures LowInflexionPoints(bars) == []
  {
    forall j | 2 <= j < |bars| - 2 ensures !IsLowInflexion(bars, j) {
      if forall i :: 0 < i < |bars| ==> bars[i - 1].low <= bars[i].low {
        assert bars[j - 1].low <= bars[j].low;
      } else {
        assert bars[j + 1].low <= bars[j].low;
      }
    }
    if 5 <= |bars| {
      NoInflexionScan(bars, 2);
    }
  }

  lemma {:induction false} NoInflexionScan(bars: seq<AggBar>, i: nat)
    requires 2 <= i
    requires forall j :: i <= j < |bars| - 2 ==> !IsLowInflexion(bars, j)
    ensures InflexionScan(bars, i) == []
    decreases |bars| - i
  {
    if i < |bars| - 2 {
      NoInflexionScan(bars, i + 1);
    }
  }

  /** Lows 10, 8, 5, 8, 10 have exactly one low inflexion, the middle bar. */
  lemma LowInflexionValley(d: seq<int>)
    requires |d| == 5
    ensures var bars := seq(5, i requires 0 <= i < 5 =>
                          AggBar(d[i], 20.0, [10.0, 8.0, 5.0, 8.0, 10.0][i], None, None, map[]));
      LowInflexionPoints(bars) == [Trap(d[2], 5.0)]
  {
    var bars := seq(5, i requires 0 <= i < 5 =>
                      AggBar(d[i], 20.0, [10.0, 8.0, 5.0, 8.0, 10.0][i], None, None, map[]));
    assert IsLowInflexion(bars, 2);
    assert InflexionScan(bars, 3) == [];
    assert LowInflexionIndices(bars) == [2];
  }

  // ---------------------------------------------------------------------
  // Bear-trap validation (findBearTraps)
  // ---------------------------------------------------------------------

  /** `new Date(trap.date) >= from && new Date(trap.date) <= to`. A missing
      bound (`new Date(undefined)`, an invalid date) makes both comparisons
      false. */
  predicate InWindow(t: Trap, from: Option<int>, to: Option<int>)
  {
    from.Some? && to.Some? && from.value <= t.date <= to.value
  }

  /** Some window trap dated strictly after `t`, and not after `to`, has a
      strictly lower low. */
  predicate Undercut(window: seq<Trap>, t: Trap, to: Option<int>)
  {
    exists u :: u in window && t.date < u.date && to.Some? && u.date <= to.value && u.low < t.low
  }

  /** `findBearTraps(potentialTraps, fromDate, toDate)`: the traps inside the
      window that no later trap of the window undercuts, in input order. */
  function FindBearTraps(potentialTraps: seq<Trap>, from: Option<int>, to: Option<int>): (r: seq<Trap>)
    ensures |r| <= |potentialTraps|
  {
    var window := Filter(potentialTraps, (t: Trap) => InWindow(t, from, to));
    Filter(window, (t: Trap) => !Undercut(window, t, to))
  }

  /** A trap is kept iff it is a candidate inside the window and no window
      trap dated later has a strictly lower low. */
  lemma BearTrapsExact(potentialTraps: seq<Trap>, from: Option<int>, to: Option<int>, t: Trap)
    ensures t in FindBearTraps(potentialTraps, from, to) <==>
      && t in potentialTraps && InWindow(t, from, to)
      && !exists u :: u in potentialTraps && InWindow(u, from, to) && t.date < u.date && u.low < t.low
  {
    var window := Filter(potentialTraps, (u: Trap) => InWindow(u, from, to));
    if t in potentialTraps && InWindow(t, from, to) {
      FilterKeeps(potentialTraps, (u: Trap) => InWindow(u, from, to), t);
      if !exists u :: u in potentialTraps && InWindow(u, from, to) && t.date < u.date && u.low < t.low {
        FilterKeeps(window, (u: Trap) => !Undercut(window, u, to), t);
      }
    }
    if exists u :: u in potentialTraps && InWindow(u, from, to) && t.date < u.date && u.low < t.low {
      var u :| u in potentialTraps && InWindow(u, from, to) && t.date < u.date && u.low < t.low;
      FilterKeeps(potentialTraps, (u: Trap) => InWindow(u, from, to), u);
    }
  }

  /** With an invalid bound no trap survives. */
  lemma BearTrapsNeedWindow(potentialTraps: seq<Trap>, from: Option<int>, to: Option<int>)
    requires from.None? || to.None?
    ensures FindBearTraps(potentialTraps, from, to) == []
  {
    var window := Filter(potentialTraps, (u: Trap) => InWindow(u, from, to));
    FilterNone(potentialTraps, (u: Trap) => InWindow(u, from, to));
  }

  /** The undercut test over the window agrees with the same test over the
      candidates that lie in the window. */
  lemma UndercutExact(potentialTraps: seq<Trap>, from: Option<int>, to: Option<int>, t: Trap)
    ensures Undercut(Filter(potentialTraps, (u: Trap) => InWindow(u, from, to)), t, to) <==>
      exists u :: u in potentialTraps && InWindow(u, from, to) && t.date < u.date && u.low < t.low
  {
    if exists u :: u in potentialTraps && InWindow(u, from, to) && t.date < u.date && u.low < t.low {
      var u :| u in potentialTraps && InWindow(u, from, to) && t.date < u.date && u.low < t.low;
      FilterKeeps(potentialTraps, (u: Trap) => InWindow(u, from, to), u);
    }
  }

  /** The kept traps appear in input order: they are picked out of the
      candidates by the positions `idx`, and position `j` is picked iff its
      trap lies in the window and no later window candidate has a lower low,
      so a trap listed twice is kept twice or not at all. */
  lemma BearTrapsInOrder(potentialTraps: seq<Trap>, from: Option<int>, to: Option<int>) returns (idx: seq<int>)
    ensures SelectedBy(FindBearTraps(potentialTraps, from, to), potentialTraps, idx)
    ensures forall j :: 0 <= j < |potentialTraps| ==>
      (j in idx <==>
        && InWindow(potentialTraps[j], from, to)
        && !exists u :: (u in potentialTraps && InWindow(u, from, to)
                         && potentialTraps[j].date < u.date && u.low < potentialTraps[j].low))
  {
    idx := KeptSelection(potentialTraps, from, to);
    KeptPositions(potentialTraps, from, to, idx);
  }

  /** `FindBearTraps` as one filter of the candidates, with its positions. */
  lemma KeptSelection(potentialTraps: seq<Trap>, from: Option<int>, to: Option<int>) returns (idx: seq<int>)
    ensures SelectedBy(FindBearTraps(potentialTraps, from, to), potentialTraps, idx)
    ensures forall j :: 0 <= j < |potentialTraps| ==>
      (j in idx <==> KeptTrap(Filter(potentialTraps, (u: Trap) => InWindow(u, from, to)), from, to, potentialTraps[j]))
  {
    var inWindow := (u: Trap) => InWindow(u, from, to);
    var window := Filter(potentialTraps, inWindow);
    var survives := (u: Trap) => !Undercut(window, u, to);
    var kept := (u: Trap) => KeptTrap(window, from, to, u);
    FilterFilter(potentialTraps, inWindow, survives, kept);
    idx := FilterSelects(potentialTraps, kept);
  }

  /** A trap in the window that no later window trap undercuts. */
  predicate KeptTrap(window: seq<Trap>, from: Option<int>, to: Option<int>, t: Trap)
  {
    InWindow(t, from, to) && !Undercut(window, t, to)
  }

  /** `BearTrapsInOrder`'s position condition, restated without the window. */
  lemma KeptPositions(potentialTraps: seq<Trap>, from: Option<int>, to: Option<int>, idx: seq<int>)
    requires forall j :: 0 <= j < |potentialTraps| ==>
      (j in idx <==> KeptTrap(Filter(potentialTraps, (u: Trap) => InWindow(u, from, to)), from, to, potentialTraps[j]))
    ensures forall j :: 0 <= j < |potentialTraps| ==>
      (j in idx <==>
        && InWindow(potentialTraps[j], from, to)
        && !exists u :: (u in potentialTraps && InWindow(u, from, to)
                         && potentialTraps[j].date < u.date && u.low < potentialTraps[j].low))
  {
    forall j | 0 <= j < |potentialTraps|
      ensures j in idx <==>
        && InWindow(potentialTraps[j], from, to)
        && !exists u :: (u in potentialTraps && InWindow(u, from, to)
                         && potentialTraps[j].date < u.date && u.low < potentialTraps[j].low)
    {
      UndercutExact(potentialTraps, from, to, potentialTraps[j]);
    }
  }

  lemma {:induction false} LatestTrap(traps: seq<Trap>) returns (t: Trap)
    requires traps != []
    ensures t in traps && forall u :: u in traps ==> u.date <= t.date
    decreases |traps|
  {
    if |traps| == 1 {
      t := traps[0];
    } else {
      var rest := LatestTrap(traps[1..]);
      t := if traps[0].date <= rest.date then rest else traps[0];
      forall u | u in traps ensures u.date <= t.date {
        if u != traps[0] {
          assert u in traps[1..];
        }
      }
    }
  }

  /** A window holding at least one candidate yields at least one bear trap:
      a latest-dated candidate cannot be undercut. */
  lemma BearTrapsNonEmpty(potentialTraps: seq<Trap>, from: Option<int>, to: Option<int>, c: Trap)
    requires c in potentialTraps && InWindow(c, from, to)
    ensures FindBearTraps(potentialTraps, from, to) != []
  {
    var window := Filter(potentialTraps, (u: Trap) => InWindow(u, from, to));
    FilterKeeps(potentialTraps, (u: Trap) => InWindow(u, from, to), c);
    var t := LatestTrap(window);
    BearTrapsExact(potentialTraps, from, to, t);
    if t !in FindBearTraps(potentialTraps, from, to) {
      var u :| u in potentialTraps && InWindow(u, from, to) && t.date < u.date && u.low < t.low;
      FilterKeeps(potentialTraps, (u: Trap) => InWindow(u, from, to), u);
    }
  }

  /** Ordered by date, the kept lows never fall. */
  lemma BearTrapLowsRise(potentialTraps: seq<Trap>, from: Option<int>, to: Option<int>, t1: Trap, t2: Trap)
    requires t1 in FindBearTraps(potentialTraps, from, to) && t2 in FindBearTraps(potentialTraps, from, to)
    requires t1.date < t2.date
    ensures t1.low <= t2.low
  {
    BearTrapsExact(potentialTraps, from, to, t1);
    BearTrapsExact(potentialTraps, from, to, t2);
  }

  /** Lows 10, 8, 12 on days 1, 2, 3 over the window [1, 3]: day 1 is
      undercut by day 2; days 2 and 3 are kept. */
  lemma BearTrapsExample()
    ensures FindBearTraps([Trap(1, 10.0), Trap(2, 8.0), Trap(3, 12.0)], Some(1), Some(3))
      == [Trap(2, 8.0), Trap(3, 12.0)]
  {
    var traps := [Trap(1, 10.0), Trap(2, 8.0), Trap(3, 12.0)];
    FilterAll(traps, (u: Trap) => InWindow(u, Some(1), Some(3)));
    ExampleSurvivors(traps);
  }

  lemma ExampleSurvivors(traps: seq<Trap>)
    requires traps == [Trap(1, 10.0), Trap(2, 8.0), Trap(3, 12.0)]
    ensures Filter(traps, (t: Trap) => !Undercut(traps, t, Some(3))) == [Trap(2, 8.0), Trap(3, 12.0)]
  {
    var survives := (u: Trap) => !Undercut(traps, u, Some(3));
    assert Undercut(traps, Trap(1, 10.0), Some(3)) by {
      assert Trap(2, 8.0) in traps;
    }
    assert !Undercut(traps, Trap(2, 8.0), Some(3));
    assert !Undercut(traps, Trap(3, 12.0), Some(3));
    assert traps[..2] == [Trap(1, 10.0), Trap(2, 8.0)] && traps[..2][..1] == [Trap(1, 10.0)];
    FilterSingleton(Trap(1, 10.0), survives);
    assert Filter(traps[..2], survives) == [Trap(2, 8.0)];
  }
}
