/** The quote normaliser applied to every price history the provider hands
    over (utils/getStockData.js, with a verbatim copy in the analyze-stock
    route). */
module StockData {
  import opened JsValues
  import opened Seqs

  /** One daily quote. Prices and volume may be missing (`null`); `parsedDate`
      is the `Date` property that the two-day aggregation writes into each
      quote it is given, absent until then. `adjclose` stands for the other
      properties a quote carries, which the normaliser copies unchanged. */
  datatype Quote = Quote(
    date: int,
    open: Option<real>,
    high: Option<real>,
    low: Option<real>,
    close: Option<real>,
    volume: Option<int>,
    adjclose: Option<real>,
    parsedDate: Option<int>)

  /** `x || null` for a nullable price: `null` and 0 are falsy. */
  function PriceOrNull(x: Option<real>): Option<real>
  {
    if x.Some? && x.value != 0.0 then x else None
  }

  /** `x || null` for a nullable volume. */
  function VolumeOrNull(x: Option<int>): Option<int>
  {
    if x.Some? && x.value != 0 then x else None
  }

  /** The `map` step: every falsy price or volume becomes `null`. */
  function NormaliseQuote(q: Quote): Quote
  {
    q.(open := PriceOrNull(q.open), high := PriceOrNull(q.high), low := PriceOrNull(q.low),
       close := PriceOrNull(q.close), volume := VolumeOrNull(q.volume))
  }

  /** The `filter` step: a row survives unless both `low` and `high` are `null`. */
  predicate KeepRow(q: Quote)
  {
    q.low != None || q.high != None
  }

  /** A quote in which no price and no volume is zero. */
  predicate NoZeroField(q: Quote)
  {
    && q.open != Some(0.0) && q.high != Some(0.0) && q.low != Some(0.0)
    && q.close != Some(0.0) && q.volume != Some(0)
  }

  function NormaliseAll(quotes: seq<Quote>): seq<Quote>
  {
    seq(|quotes|, i requires 0 <= i < |quotes| => NormaliseQuote(quotes[i]))
  }

  /** `convertToHistoricalResult`: normalise every quote, then drop the rows
      left with neither a low nor a high. */
  function ConvertToHistoricalResult(quotes: seq<Quote>): (r: seq<Quote>)
    ensures |r| <= |quotes|
    ensures forall q :: q in r ==> KeepRow(q) && NoZeroField(q)
  {
    Filter(NormaliseAll(quotes), KeepRow)
  }

  /** Normalising changes exactly the falsy prices and volume, each to `null`,
      and leaves every other property as it was. */
  lemma NormaliseQuoteFields(q: Quote)
    ensures var n := NormaliseQuote(q);
      && (n.open == None <==> q.open == None || q.open == Some(0.0))
      && (n.high == None <==> q.high == None || q.high == Some(0.0))
      && (n.low == None <==> q.low == None || q.low == Some(0.0))
      && (n.close == None <==> q.close == None || q.close == Some(0.0))
      && (n.volume == None <==> q.volume == None || q.volume == Some(0))
      && (n.open != None ==> n.open == q.open) && (n.high != None ==> n.high == q.high)
      && (n.low != None ==> n.low == q.low) && (n.close != None ==> n.close == q.close)
      && (n.volume != None ==> n.volume == q.volume)
      && n.date == q.date && n.adjclose == q.adjclose && n.parsedDate == q.parsedDate
  {
  }

  /** The surviving rows are the normalised input rows that keep a low or a
      high, in their original order: `idx` names the input row of each output
      row, and a row is dropped exactly when both its low and its high are
      falsy. */
  lemma {:induction false} ConvertSelectsRows(quotes: seq<Quote>) returns (idx: seq<int>)
    ensures var r := ConvertToHistoricalResult(quotes);
      && |idx| == |r|
      && (forall k :: 0 <= k < |idx| ==> 0 <= idx[k] < |quotes| && r[k] == NormaliseQuote(quotes[idx[k]]))
      && (forall a, b :: 0 <= a < b < |idx| ==> idx[a] < idx[b])
      && (forall j :: 0 <= j < |quotes| ==>
            (j in idx <==> KeepRow(NormaliseQuote(quotes[j]))))
  {
    var all := NormaliseAll(quotes);
    idx := FilterSelects(all, KeepRow);
    forall j | 0 <= j < |quotes| && j in idx
      ensures KeepRow(NormaliseQuote(quotes[j]))
    {
      var k :| 0 <= k < |idx| && idx[k] == j;
      assert Filter(all, KeepRow)[k] == all[j];
      assert Filter(all, KeepRow)[k] in Filter(all, KeepRow);
    }
  }

  /** Normalising twice is normalising once. */
  lemma ConvertIdempotent(quotes: seq<Quote>)
    ensures ConvertToHistoricalResult(ConvertToHistoricalResult(quotes)) == ConvertToHistoricalResult(quotes)
  {
    var r := ConvertToHistoricalResult(quotes);
    assert NormaliseAll(r) == r by {
      forall i | 0 <= i < |r| ensures NormaliseQuote(r[i]) == r[i] {
        assert r[i] in r;
      }
    }
    FilterAll(r, KeepRow);
  }
}
