/** The "bull appear" scanner of utils/indicators.js
    (`getApexBullAppearDates`). A wallaby is an inside bar, the kangaroo the
    bar before it; each wallaby passes a chain of reject checks (active bear
    traps, the 200-SMA slope, the 50-SMA level), a pullback scan of up to four
    bars and a confirmation scan of up to six bars before its bull-appear date
    is emitted. */
module Indicators {
  import opened JsValues
  import opened Seqs
  import opened StockData
  import opened IndicatorHelpers

  // ---------------------------------------------------------------------
  // Wallaby bars
  // ---------------------------------------------------------------------

  /** `condition[w]`: bar `w > 0` lies strictly inside the range of bar `w - 1`. */
  predicate IsWallaby(bars: seq<AggBar>, w: int)
  {
    0 < w < |bars| && bars[w].high < bars[w - 1].high && bars[w].low > bars[w - 1].low
  }

  /** The positions of the wallaby bars among the first `n` bars, ascending. */
  function WallabiesBelow(bars: seq<AggBar>, n: nat): (r: seq<nat>)
    requires n <= |bars|
    ensures forall k :: 0 <= k < |r| ==> r[k] < n && IsWallaby(bars, r[k])
  {
    if n == 0 then []
    else WallabiesBelow(bars, n - 1) + (if IsWallaby(bars, n - 1) then [n - 1] else [])
  }

  /** The positions behind `wallabyDates`. Every aggregated bar carries its own
      `Date` object, so `findIndex(obj => obj.Date === date)` (an identity
      comparison) finds the wallaby's own position: the scan visits exactly
      these positions, in this order. */
  function WallabyPositions(bars: seq<AggBar>): seq<nat>
  {
    WallabiesBelow(bars, |bars|)
  }

  // ---------------------------------------------------------------------
  // Property reads and the bar tests
  // ---------------------------------------------------------------------

  /** `bar.SMA_<p>`: the stored SMA, `null`, or `undefined` when
      `calculateSMA` never wrote that period. */
  function SmaField(b: AggBar, p: nat): Value
  {
    if p in b.smas then OfNullable(b.smas[p]) else Undefined
  }

  /** `aggregatedData[i]?.Date`: `None` (an invalid date once passed to
      `new Date`) when `i` is out of range. */
  function DateAt(bars: seq<AggBar>, i: int): Option<int>
  {
    if 0 <= i < |bars| then Some(bars[i].date) else None
  }

  /** `trap[1]` on a `{date, low}` object: there is no property "1". */
  function TrapSlotOne(t: Trap): Value
  {
    Undefined
  }

  /** `activeBearTraps.some(trap => trap[1] > Low && trap[1] < High)`. */
  predicate TrapTaken(traps: seq<Trap>, b: AggBar)
  {
    exists t :: t in traps && Less(Number(b.low), TrapSlotOne(t)) && Less(TrapSlotOne(t), Number(b.high))
  }

  /** `[Low, High]` contains one of SMA_20, SMA_50 or SMA_200 (inclusive). */
  predicate TouchesSma(b: AggBar)
  {
    || (LessEq(Number(b.low), SmaField(b, 20)) && LessEq(SmaField(b, 20), Number(b.high)))
    || (LessEq(Number(b.low), SmaField(b, 50)) && LessEq(SmaField(b, 50), Number(b.high)))
    || (LessEq(Number(b.low), SmaField(b, 200)) && LessEq(SmaField(b, 200), Number(b.high)))
  }

  /** The bullish-bar test: open and close both in the top fifth of the
      range, or a body larger than half the range. A `null` open or close
      counts as 0. */
  predicate Bullish(b: AggBar)
  {
    var range := b.high - b.low;
    || (Num(b.open) > b.low + (4.0 / 5.0) * range && Num(b.close) > b.low + (4.0 / 5.0) * range)
    || Num(b.close) - Num(b.open) > 0.5 * range
  }

  /** The close of bar `b` lies within the kangaroo's range. */
  predicate CloseInRange(b: AggBar, kangaroo: AggBar)
  {
    kangaroo.low <= Num(b.close) && Num(b.close) <= kangaroo.high
  }

  // ---------------------------------------------------------------------
  // The pullback scan (lines 63-106) and the confirmation scan (113-145)
  // ---------------------------------------------------------------------

  /** The flags and the last visited date of the pullback scan. */
  datatype PullbackState = PullbackState(below: bool, bullish: bool, date: Option<int>)

  /** The pullback scan from offset `i` on, over bars `w + i` for `i < 5`. */
  function PullbackFrom(bars: seq<AggBar>, w: nat, i: nat, st: PullbackState): PullbackState
    requires 1 <= w < |bars| && 1 <= i <= 5
    decreases 5 - i
  {
    if i == 5 || w + i >= |bars| then st
    else
      var b := bars[w + i];
      var k := w - 1;
      if b.high > bars[k].high then st.(date := Some(b.date))
      else
        var below := st.below || b.low < bars[k].low;
        if below && !st.bullish && CloseInRange(b, bars[k]) && Bullish(b) then
          PullbackState(below, true, Some(b.date))
        else
          PullbackFrom(bars, w, i + 1, PullbackState(below, st.bullish, Some(b.date)))
  }

  /** The confirmation scan from offset `i` on, over bars `w - 2 + i` for
      `i < 6`, none dated after `signal`. */
  function ConfirmFrom(bars: seq<AggBar>, traps: seq<Trap>, w: nat, i: nat, signal: int): bool
    requires 2 <= w && i <= 6
    decreases 6 - i
  {
    if i == 6 || w - 2 + i >= |bars| then false
    else
      var b := bars[w - 2 + i];
      if b.date > signal then false
      else if TrapTaken(traps, b) then true
      else if i > 0 && TouchesSma(b) then true
      else ConfirmFrom(bars, traps, w, i + 1, signal)
  }

  /** The active bear traps of wallaby `w`: those found between the dates of
      bars `max(0, w - 126)` and `w - 2`. */
  function ActiveTraps(bars: seq<AggBar>, potential: seq<Trap>, w: int): seq<Trap>
  {
    var startIndex := if w - 126 < 0 then 0 else w - 126;
    FindBearTraps(potential, DateAt(bars, startIndex), DateAt(bars, w - 2))
  }

  /** The 200 SMA slopes down from the kangaroo to five bars later. */
  predicate SlopeDown(bars: seq<AggBar>, k: nat)
    requires k < |bars|
  {
    k + 5 < |bars| && Less(SmaField(bars[k + 5], 200), SmaField(bars[k], 200))
  }

  /** The kangaroo's low is not above its 50 SMA. */
  predicate NotAbove50(bars: seq<AggBar>, k: nat)
    requires k < |bars|
  {
    LessEq(Number(bars[k].low), SmaField(bars[k], 50))
  }

  lemma BearTrapsWindowValid(potential: seq<Trap>, from: Option<int>, to: Option<int>)
    ensures FindBearTraps(potential, from, to) != [] ==> from.Some? && to.Some?
  {
    if from.None? || to.None? {
      BearTrapsNeedWindow(potential, from, to);
    }
  }

  /** The date the scan pushes for wallaby `w`, if any. */
  function CandidateSignal(bars: seq<AggBar>, potential: seq<Trap>, w: nat): Option<int>
    requires IsWallaby(bars, w)
  {
    var k := w - 1;
    var traps := ActiveTraps(bars, potential, w);
    if traps == [] then None
    else if SlopeDown(bars, k) || NotAbove50(bars, k) then None
    else
      var st := PullbackFrom(bars, w, 1, PullbackState(false, false, None));
      if !st.below || !st.bullish || st.date.None? then None
      else
        BearTrapsWindowValid(potential, DateAt(bars, if w - 126 < 0 then 0 else w - 126), DateAt(bars, w - 2));
        if ConfirmFrom(bars, traps, w, 0, st.date.value) then st.date else None
  }

  /** The present values of `xs`, in order. */
  function Somes(xs: seq<Option<int>>): seq<int>
  {
    if xs == [] then []
    else Somes(xs[..|xs| - 1]) + (match xs[|xs| - 1] case Some(d) => [d] case None => [])
  }

  /** What each wallaby of `ws` signals. */
  function Candidates(bars: seq<AggBar>, potential: seq<Trap>, ws: seq<nat>): (r: seq<Option<int>>)
    requires forall k :: 0 <= k < |ws| ==> IsWallaby(bars, ws[k])
    ensures |r| == |ws|
  {
    seq(|ws|, k requires 0 <= k < |ws| => CandidateSignal(bars, potential, ws[k]))
  }

  /** The dates pushed while visiting the wallabies `ws`, in that order. */
  function SignalsOver(bars: seq<AggBar>, potential: seq<Trap>, ws: seq<nat>): seq<int>
    requires forall k :: 0 <= k < |ws| ==> IsWallaby(bars, ws[k])
  {
    Somes(Candidates(bars, potential, ws))
  }

  /** The dates the scan of `bars` returns. */
  function Signals(bars: seq<AggBar>): seq<int>
  {
    SignalsOver(bars, LowInflexionPoints(bars), WallabyPositions(bars))
  }

  /** `slice(-30)`: the last 30 bars, or all of them when there are fewer. */
  function LastThirty(bars: seq<AggBar>): (r: seq<AggBar>)
    ensures |r| == if |bars| < 30 then |bars| else 30
    ensures forall i :: 0 <= i < |r| ==> r[i] == bars[|bars| - |r| + i]
  {
    if |bars| <= 30 then bars else bars[|bars| - 30..]
  }

  /** The bars after aggregation and `calculateSMA(..., [20, 50, 200])`. */
  ghost function SmaBars(quotes: seq<Quote>, year: int -> nat): seq<AggBar>
  {
    WithSmas(Aggregated(Stamp(quotes), year), [20, 50, 200])
  }

  /** `getApexBullAppearDates(data, showWinRate)`; `None` is a null `data`. */
  ghost function ApexBullAppear(data: Option<seq<Quote>>, year: int -> nat, showWinRate: bool): seq<int>
  {
    var bars := if data.None? then [] else SmaBars(data.value, year);
    Signals(if showWinRate then bars else LastThirty(bars))
  }

  // ---------------------------------------------------------------------
  // The scan, as the source runs it
  // ---------------------------------------------------------------------

  /** Lines 63-106: up to four bars after the wallaby, stopping at the end of
      the data, at a bar above the kangaroo's high, or at the first bullish
      bar closing back in the kangaroo's range after a bar went below it. */
  method ScanPullback(aggregatedData: array<AggBar>, wallabyPos: nat) returns (st: PullbackState)
    requires 1 <= wallabyPos < aggregatedData.Length
    ensures st == PullbackFrom(aggregatedData[..], wallabyPos, 1, PullbackState(false, false, None))
  {
    ghost var bars := aggregatedData[..];
    ghost var goal := PullbackFrom(bars, wallabyPos, 1, PullbackState(false, false, None));
    var kangarooPos := wallabyPos - 1;
    var anyBarWentBelowKangaroo := false;
    var bullishBarWentBackUpToRange := false;
    var potentialBullAppearDate: Option<int> := None;
    var i := 1;
    while i < 5
      invariant 1 <= i <= 5 && !bullishBarWentBackUpToRange
      invariant PullbackFrom(bars, wallabyPos, i,
        PullbackState(anyBarWentBelowKangaroo, bullishBarWentBackUpToRange, potentialBullAppearDate)) == goal
    {
      var targetPos := wallabyPos + i;
      if targetPos >= aggregatedData.Length {
        break;
      }
      var currData := aggregatedData[targetPos];
      potentialBullAppearDate := Some(currData.date);
      if currData.high > aggregatedData[kangarooPos].high {
        break;
      }
      if !anyBarWentBelowKangaroo && currData.low < aggregatedData[kangarooPos].low {
        anyBarWentBelowKangaroo := true;
      }
      if anyBarWentBelowKangaroo && !bullishBarWentBackUpToRange
        && aggregatedData[kangarooPos].low <= Num(currData.close)
        && Num(currData.close) <= aggregatedData[kangarooPos].high
      {
        if Bullish(currData) {
          bullishBarWentBackUpToRange := true;
          break;
        }
      }
      i := i + 1;
    }
    st := PullbackState(anyBarWentBelowKangaroo, bullishBarWentBackUpToRange, potentialBullAppearDate);
  }

  /** Lines 113-145: from the bar before the kangaroo, up to six bars not
      dated after the signal, looking for a taken trap or an SMA touch. */
  method ScanConfirm(aggregatedData: array<AggBar>, activeBearTraps: seq<Trap>, wallabyPos: nat, potentialBullAppearDate: int)
    returns (confirmed: bool)
    requires 2 <= wallabyPos
    ensures confirmed == ConfirmFrom(aggregatedData[..], activeBearTraps, wallabyPos, 0, potentialBullAppearDate)
  {
    ghost var bars := aggregatedData[..];
    var endIndex := wallabyPos - 2;
    confirmed := false;
    var i := 0;
    while i < 6
      invariant 0 <= i <= 6 && !confirmed
      invariant ConfirmFrom(bars, activeBearTraps, wallabyPos, i, potentialBullAppearDate)
        == ConfirmFrom(bars, activeBearTraps, wallabyPos, 0, potentialBullAppearDate)
    {
      var currPos := endIndex + i;
      if currPos >= aggregatedData.Length {
        break;
      }
      var currData := aggregatedData[currPos];
      if currData.date > potentialBullAppearDate {
        break;
      }
      if TrapTaken(activeBearTraps, currData) {
      } else if i > 0 && TouchesSma(currData) {
      } else {
        i := i + 1;
        continue;
      }
      confirmed := true;
      break;
    }
  }

  /** Lines 29-61: the trap window and the two SMA conditions. */
  method ScanGates(aggregatedData: array<AggBar>, potentialBearTraps: seq<Trap>, wallabyPos: nat)
    returns (activeBearTraps: seq<Trap>, pass: bool)
    requires IsWallaby(aggregatedData[..], wallabyPos)
    ensures activeBearTraps == ActiveTraps(aggregatedData[..], potentialBearTraps, wallabyPos)
    ensures pass <==> (activeBearTraps != []
      && !SlopeDown(aggregatedData[..], wallabyPos - 1) && !NotAbove50(aggregatedData[..], wallabyPos - 1))
  {
    var kangarooPos := wallabyPos - 1;
    var startIndex := if wallabyPos - 126 < 0 then 0 else wallabyPos - 126;
    var endIndex := kangarooPos - 1;
    var from := if startIndex < aggregatedData.Length then Some(aggregatedData[startIndex].date) else None;
    var to := if 0 <= endIndex < aggregatedData.Length then Some(aggregatedData[endIndex].date) else None;
    activeBearTraps := FindBearTraps(potentialBearTraps, from, to);
    if |activeBearTraps| == 0 {
      return activeBearTraps, false;
    }
    if kangarooPos + 5 < aggregatedData.Length
      && Less(SmaField(aggregatedData[kangarooPos + 5], 200), SmaField(aggregatedData[kangarooPos], 200))
    {
      return activeBearTraps, false;
    }
    if LessEq(Number(aggregatedData[kangarooPos].low), SmaField(aggregatedData[kangarooPos], 50)) {
      return activeBearTraps, false;
    }
    pass := true;
  }

  /** One wallaby's pass through the body of the loop at lines 21-147. */
  method ScanCandidate(aggregatedData: array<AggBar>, potentialBearTraps: seq<Trap>, wallabyPos: nat)
    returns (bullAppearDate: Option<int>)
    requires IsWallaby(aggregatedData[..], wallabyPos)
    ensures bullAppearDate == CandidateSignal(aggregatedData[..], potentialBearTraps, wallabyPos)
  {
    var activeBearTraps, pass := ScanGates(aggregatedData, potentialBearTraps, wallabyPos);
    if !pass {
      return None;
    }
    var st := ScanPullback(aggregatedData, wallabyPos);
    if !st.below || !st.bullish || st.date.None? {
      return None;
    }
    var confirmed := ScanConfirm(aggregatedData, activeBearTraps, wallabyPos, st.date.value);
    bullAppearDate := if confirmed then st.date else None;
  }


  lemma SignalsStep(bars: seq<AggBar>, potential: seq<Trap>, ws: seq<nat>, i: nat)
    requires forall k :: 0 <= k < |ws| ==> IsWallaby(bars, ws[k])
    requires i < |ws|
    ensures SignalsOver(bars, potential, ws[..i + 1]) == SignalsOver(bars, potential, ws[..i])
      + (match CandidateSignal(bars, potential, ws[i]) case Some(d) => [d] case None => [])
  {
    var c := Candidates(bars, potential, ws[..i + 1]);
    assert c[..i] == Candidates(bars, potential, ws[..i]);
  }

  /** Lines 15-146 on the (possibly sliced) bars: the wallaby positions, the
      potential bear traps, then one candidate after another. */
  method ScanBullAppear(aggregatedData: array<AggBar>) returns (bullAppearDates: seq<int>)
    ensures bullAppearDates == Signals(aggregatedData[..])
  {
    ghost var bars := aggregatedData[..];
    var wallabyPositions := WallabyPositions(aggregatedData[..]);
    var potentialBearTraps := LowInflexionPoints(aggregatedData[..]);
    bullAppearDates := [];
    for i := 0 to |wallabyPositions|
      invariant bullAppearDates == SignalsOver(bars, potentialBearTraps, wallabyPositions[..i])
    {
      var wallabyPos := wallabyPositions[i];
      var date := ScanCandidate(aggregatedData, potentialBearTraps, wallabyPos);
      SignalsStep(bars, potentialBearTraps, wallabyPositions, i);
      if date.Some? {
        bullAppearDates := bullAppearDates + [date.value];
      }
    }
    assert wallabyPositions[..|wallabyPositions|] == wallabyPositions;
  }

  /** `aggregatedData.slice(-30)`, a new array. */
  method SliceLastThirty(aggregatedData: array<AggBar>) returns (r: array<AggBar>)
    ensures fresh(r) && r[..] == LastThirty(aggregatedData[..])
  {
    var n := aggregatedData.Length;
    var start := if n <= 30 then 0 else n - 30;
    r := new AggBar[n - start](j requires 0 <= j < n - start reads aggregatedData => aggregatedData[start + j]);
  }

  lemma StampEmpty(quotes: seq<Quote>)
    requires quotes == []
    ensures Stamp(quotes) == quotes
  {
  }
  /** Lines 5-8: aggregate (stamping the input) and add the three SMAs. */
  method SmaAggregate(data: array?<Quote>, year: int -> nat) returns (aggregatedData: array<AggBar>)
    modifies data
    ensures fresh(aggregatedData)
    ensures data != null ==> data[..] == (if data.Length == 0 then old(data[..]) else Stamp(old(data[..])))
    ensures aggregatedData[..] == if data == null then [] else SmaBars(old(data[..]), year)
  {
    ghost var quotes := if data == null then [] else data[..];
    aggregatedData := Get2DayAggregatedData(data, year);
    if data != null && data.Length == 0 {
      StampEmpty(quotes);
    }
    aggregatedData := CalculateSma(aggregatedData, [20, 50, 200]);
  }


  /** `getApexBullAppearDates(data, showWinRate)`: aggregates (stamping
      `Date` into `data`), writes the SMAs, keeps the last 30 bars unless the
      win rate is wanted, and scans. */
  method GetApexBullAppearDates(data: array?<Quote>, year: int -> nat, showWinRate: bool)
    returns (bullAppearDates: seq<int>)
    modifies data
    ensures data != null ==> data[..] == (if data.Length == 0 then old(data[..]) else Stamp(old(data[..])))
    ensures bullAppearDates == ApexBullAppear(if data == null then None else Some(old(data[..])), year, showWinRate)
  {
    var aggregatedData := SmaAggregate(data, year);
    if !showWinRate {
      aggregatedData := SliceLastThirty(aggregatedData);
    }
    bullAppearDates := ScanBullAppear(aggregatedData);
  }


  // ---------------------------------------------------------------------
  // What the scan promises
  // ---------------------------------------------------------------------

  /** The scan visits exactly the wallaby bars, in ascending position. */
  lemma {:induction false} WallabiesBelowExact(bars: seq<AggBar>, n: nat, w: int)
    requires n <= |bars|
    ensures w in WallabiesBelow(bars, n) <==> w < n && IsWallaby(bars, w)
    ensures StrictlyAscending(WallabiesBelow(bars, n))
    decreases n
  {
    if n > 0 {
      WallabiesBelowExact(bars, n - 1, w);
    }
  }

  lemma WallabyPositionsExact(bars: seq<AggBar>, w: int)
    ensures w in WallabyPositions(bars) <==> IsWallaby(bars, w)
    ensures StrictlyAscending(WallabyPositions(bars))
  {
    WallabiesBelowExact(bars, |bars|, w);
  }

  /** The wallaby right after the first bar has no bar before its kangaroo,
      so its bear-trap window is invalid and it never signals. */
  lemma FirstWallabyNeverSignals(bars: seq<AggBar>, potential: seq<Trap>)
    requires IsWallaby(bars, 1)
    ensures ActiveTraps(bars, potential, 1) == []
    ensures CandidateSignal(bars, potential, 1) == None
  {
    BearTrapsNeedWindow(potential, DateAt(bars, 0), DateAt(bars, -1));
  }

  /** `trap[1]` is `undefined`, so the bear-trap branch of the confirmation
      never succeeds. */
  lemma TrapBranchNeverFires(traps: seq<Trap>, b: AggBar)
    ensures !TrapTaken(traps, b)
  {
    forall t | t in traps ensures !Less(Number(b.low), TrapSlotOne(t)) {
      UndefinedIncomparable(Number(b.low));
    }
  }

  /** The reject checks: no active bear trap, a 200 SMA that falls over the
      five bars after the kangaroo (only checked when that bar exists), or a
      kangaroo low not above its 50 SMA. */
  lemma CandidateRejections(bars: seq<AggBar>, potential: seq<Trap>, w: nat)
    requires IsWallaby(bars, w)
    ensures ActiveTraps(bars, potential, w) == [] ==> CandidateSignal(bars, potential, w) == None
    ensures w + 4 < |bars| && Less(SmaField(bars[w + 4], 200), SmaField(bars[w - 1], 200))
      ==> CandidateSignal(bars, potential, w) == None
    ensures LessEq(Number(bars[w - 1].low), SmaField(bars[w - 1], 50)) ==> CandidateSignal(bars, potential, w) == None
    ensures |bars| <= w + 4 ==> !SlopeDown(bars, w - 1)
  {
  }

  /** Bars `w + 1` .. `w + j` exist and none has a high above the kangaroo's. */
  ghost predicate NoBreakout(bars: seq<AggBar>, w: nat, j: int)
    requires 1 <= w < |bars|
  {
    forall p :: w < p <= w + j ==> p < |bars| && bars[p].high <= bars[w - 1].high
  }

  /** One of bars `w + 1` .. `w + j` has a low below the kangaroo's. */
  ghost predicate DippedBelow(bars: seq<AggBar>, w: nat, j: int)
    requires 1 <= w < |bars|
  {
    exists p :: w < p <= w + j && p < |bars| && bars[p].low < bars[w - 1].low
  }

  /** Bar `w + j` completes the pullback: no breakout up to it, a dip below
      the kangaroo up to it, and it is a bullish bar closing back in range. */
  ghost predicate PullbackAt(bars: seq<AggBar>, w: nat, j: int)
    requires 1 <= w < |bars|
  {
    && 1 <= j <= 4 && w + j < |bars|
    && NoBreakout(bars, w, j) && DippedBelow(bars, w, j)
    && CloseInRange(bars[w + j], bars[w - 1]) && Bullish(bars[w + j])
  }

  /** The pullback scan sets its bullish flag iff some offset completes the
      pullback; it then stops at the first such offset, with the dip flag set
      and that bar's date as the signal date. */
  lemma {:induction false} PullbackExact(bars: seq<AggBar>, w: nat, i: nat, st: PullbackState)
    requires 1 <= w < |bars| && 1 <= i <= 5 && !st.bullish
    requires NoBreakout(bars, w, i - 1)
    requires st.below <==> DippedBelow(bars, w, i - 1)
    ensures PullbackFrom(bars, w, i, st).bullish <==> exists j :: i <= j <= 4 && PullbackAt(bars, w, j)
    ensures var r := PullbackFrom(bars, w, i, st);
      r.bullish ==> r.below && exists j :: (i <= j <= 4 && PullbackAt(bars, w, j) && r.date == Some(bars[w + j].date)
        && forall m :: i <= m < j ==> !PullbackAt(bars, w, m))
    decreases 5 - i
  {
    if i == 5 || w + i >= |bars| {
      assert forall j :: i <= j <= 4 ==> !PullbackAt(bars, w, j);
    } else {
      var b := bars[w + i];
      var k := w - 1;
      if b.high > bars[k].high {
        forall j | i <= j <= 4 ensures !NoBreakout(bars, w, j) {
          assert w < w + i <= w + j;
        }
      } else {
        var below := st.below || b.low < bars[k].low;
        assert NoBreakout(bars, w, i);
        assert below <==> DippedBelow(bars, w, i) by {
          if b.low < bars[k].low {
            assert DippedBelow(bars, w, i);
          }
          if DippedBelow(bars, w, i) && !(b.low < bars[k].low) {
            var p :| w < p <= w + i && p < |bars| && bars[p].low < bars[w - 1].low;
            assert p < w + i;
          }
        }
        if below && CloseInRange(b, bars[k]) && Bullish(b) {
          assert PullbackAt(bars, w, i);
        } else {
          assert !PullbackAt(bars, w, i);
          PullbackExact(bars, w, i + 1, PullbackState(below, false, Some(b.date)));
        }
      }
    }
  }

  /** The confirmation bar at offset `c`: in bounds, not after the signal,
      and a taken trap or (past offset 0) an SMA touch. */
  ghost predicate ConfirmAt(bars: seq<AggBar>, traps: seq<Trap>, w: nat, c: int, signal: int)
    requires 2 <= w
  {
    && 0 <= c && w - 2 + c < |bars| && bars[w - 2 + c].date <= signal
    && (TrapTaken(traps, bars[w - 2 + c]) || (c > 0 && TouchesSma(bars[w - 2 + c])))
  }

  /** Bars at offsets `i` .. `c - 1` exist and are not dated after the signal. */
  ghost predicate ClearUpTo(bars: seq<AggBar>, w: nat, i: nat, c: int, signal: int)
    requires 2 <= w
  {
    forall p :: w - 2 + i <= p < w - 2 + c ==> NotAfter(bars, p, signal)
  }

  /** Bar `p` exists and is not dated after the signal. */
  ghost predicate NotAfter(bars: seq<AggBar>, p: int, signal: int)
  {
    0 <= p < |bars| && bars[p].date <= signal
  }

  lemma ClearExtend(bars: seq<AggBar>, w: nat, i: nat, c: int, signal: int)
    requires 2 <= w && w - 2 + i < |bars| && bars[w - 2 + i].date <= signal
    requires ClearUpTo(bars, w, i + 1, c, signal)
    ensures ClearUpTo(bars, w, i, c, signal)
  {
    forall q | w - 2 + i <= q < w - 2 + c ensures NotAfter(bars, q, signal) {
      if q != w - 2 + i {
        assert w - 2 + (i + 1) <= q;
      }
    }
  }

  /** The confirmation scan succeeds iff some offset up to 5 confirms before
      the scan meets the end of the data or a bar dated after the signal. */
  lemma {:induction false} ConfirmExact(bars: seq<AggBar>, traps: seq<Trap>, w: nat, i: nat, signal: int)
    requires 2 <= w && i <= 6
    ensures ConfirmFrom(bars, traps, w, i, signal) <==>
      exists c :: i <= c <= 5 && ConfirmAt(bars, traps, w, c, signal) && ClearUpTo(bars, w, i, c, signal)
    decreases 6 - i
  {
    if i == 6 || w - 2 + i >= |bars| {
    } else {
      var b := bars[w - 2 + i];
      if b.date > signal {
        forall c | i < c <= 5 ensures !ClearUpTo(bars, w, i, c, signal) {
          assert w - 2 + i <= w - 2 + i < w - 2 + c && !NotAfter(bars, w - 2 + i, signal);
        }
      } else if TrapTaken(traps, b) || (i > 0 && TouchesSma(b)) {
        assert ConfirmAt(bars, traps, w, i, signal) && ClearUpTo(bars, w, i, i, signal);
      } else {
        ConfirmExact(bars, traps, w, i + 1, signal);
        if exists c :: i <= c <= 5 && ConfirmAt(bars, traps, w, c, signal) && ClearUpTo(bars, w, i, c, signal) {
          var c :| i <= c <= 5 && ConfirmAt(bars, traps, w, c, signal) && ClearUpTo(bars, w, i, c, signal);
          assert c != i;
          assert ClearUpTo(bars, w, i + 1, c, signal);
        }
        if exists c :: i + 1 <= c <= 5 && ConfirmAt(bars, traps, w, c, signal) && ClearUpTo(bars, w, i + 1, c, signal) {
          var c :| i + 1 <= c <= 5 && ConfirmAt(bars, traps, w, c, signal) && ClearUpTo(bars, w, i + 1, c, signal);
          ClearExtend(bars, w, i, c, signal);
        }
      }
    }
  }

  /** Offset `j` is the first offset that completes the pullback. */
  ghost predicate FirstPullbackAt(bars: seq<AggBar>, w: nat, j: int)
    requires 1 <= w < |bars|
  {
    PullbackAt(bars, w, j) && forall m :: 1 <= m < j ==> !PullbackAt(bars, w, m)
  }

  /** Wallaby `w` signals date `d` exactly when it has an active bear trap,
      passes the slope and level checks, `d` is the date of the first bar
      completing the pullback, and the confirmation scan finds a confirming
      bar not dated after `d` before it meets a bar dated after `d`. */
  lemma CandidateSignalExact(bars: seq<AggBar>, potential: seq<Trap>, w: nat, d: int)
    requires IsWallaby(bars, w)
    ensures CandidateSignal(bars, potential, w) == Some(d) <==>
      && 2 <= w
      && ActiveTraps(bars, potential, w) != []
      && !SlopeDown(bars, w - 1) && !NotAbove50(bars, w - 1)
      && (exists j :: FirstPullbackAt(bars, w, j) && d == bars[w + j].date)
      && (exists c :: 0 <= c <= 5 && ConfirmAt(bars, ActiveTraps(bars, potential, w), w, c, d)
                      && ClearUpTo(bars, w, 0, c, d))
  {
    var start := if w - 126 < 0 then 0 else w - 126;
    BearTrapsWindowValid(potential, DateAt(bars, start), DateAt(bars, w - 2));
    var init := PullbackState(false, false, None);
    PullbackExact(bars, w, 1, init);
    var st := PullbackFrom(bars, w, 1, init);
    if 2 <= w {
      ConfirmExact(bars, ActiveTraps(bars, potential, w), w, 0, d);
    }
    if st.bullish {
      var j :| 1 <= j <= 4 && PullbackAt(bars, w, j) && st.date == Some(bars[w + j].date)
        && forall m :: 1 <= m < j ==> !PullbackAt(bars, w, m);
      assert FirstPullbackAt(bars, w, j);
      forall j' | FirstPullbackAt(bars, w, j') ensures j' == j {
      }
    } else {
      assert forall j :: !FirstPullbackAt(bars, w, j);
    }
  }

  /** A signalled date is the date of a bar `w + j`, `1 <= j <= 4`, that
      closes in the kangaroo's range with a bullish body, after no bar from
      `w + 1` on broke above the kangaroo and one of them dipped below it; and
      a bar at `w - 2 + c`, `1 <= c <= 5`, not dated after it, has one of its
      SMAs within its range. */
  lemma EmittedSignal(bars: seq<AggBar>, potential: seq<Trap>, w: nat, d: int)
    requires IsWallaby(bars, w) && CandidateSignal(bars, potential, w) == Some(d)
    ensures 2 <= w && ActiveTraps(bars, potential, w) != []
    ensures !SlopeDown(bars, w - 1) && !NotAbove50(bars, w - 1)
    ensures exists j :: (1 <= j <= 4 && w + j < |bars| && d == bars[w + j].date
      && CloseInRange(bars[w + j], bars[w - 1]) && Bullish(bars[w + j])
      && NoBreakout(bars, w, j) && DippedBelow(bars, w, j))
    ensures exists q :: (w - 1 <= q <= w + 3 && q < |bars| && bars[q].date <= d && TouchesSma(bars[q]))
  {
    CandidateSignalExact(bars, potential, w, d);
    var traps := ActiveTraps(bars, potential, w);
    var c :| 0 <= c <= 5 && ConfirmAt(bars, traps, w, c, d) && ClearUpTo(bars, w, 0, c, d);
    TrapBranchNeverFires(traps, bars[w - 2 + c]);
    assert TouchesSma(bars[w - 2 + c]);
  }

  /** `Somes` keeps one value per present entry, in entry order, and misses
      none. */
  lemma {:induction false} SomesFollow(xs: seq<Option<int>>) returns (idx: seq<nat>)
    ensures |idx| == |Somes(xs)| <= |xs|
    ensures forall k :: 0 <= k < |idx| ==> idx[k] < |xs| && xs[idx[k]] == Some(Somes(xs)[k])
    ensures forall a, b :: 0 <= a < b < |idx| ==> idx[a] < idx[b]
    ensures forall t :: 0 <= t < |xs| && xs[t].Some? ==> t in idx
    decreases |xs|
  {
    if xs == [] {
      idx := [];
    } else {
      var n := |xs| - 1;
      var init := xs[..n];
      var prev := SomesFollow(init);
      if xs[n].Some? {
        idx := SomesAppendPresent(xs, prev);
      } else {
        idx := prev;
        SomesAppendAbsent(xs, prev);
      }
    }
  }

  lemma SomesAppendAbsent(xs: seq<Option<int>>, prev: seq<nat>)
    requires xs != [] && xs[|xs| - 1].None?
    requires var init := xs[..|xs| - 1];
      && |prev| == |Somes(init)|
      && (forall k :: 0 <= k < |prev| ==> prev[k] < |init| && init[prev[k]] == Some(Somes(init)[k]))
      && (forall t :: 0 <= t < |init| && init[t].Some? ==> t in prev)
    ensures |prev| == |Somes(xs)|
    ensures forall k :: 0 <= k < |prev| ==> prev[k] < |xs| && xs[prev[k]] == Some(Somes(xs)[k])
    ensures forall t :: 0 <= t < |xs| && xs[t].Some? ==> t in prev
  {
    var n := |xs| - 1;
    var init := xs[..n];
    assert Somes(xs) == Somes(init);
    forall t | 0 <= t < |xs| && xs[t].Some? ensures t in prev {
      assert init[t] == xs[t];
    }
  }

  lemma SomesAppendPresent(xs: seq<Option<int>>, prev: seq<nat>) returns (idx: seq<nat>)
    requires xs != [] && xs[|xs| - 1].Some?
    requires var init := xs[..|xs| - 1];
      && |prev| == |Somes(init)|
      && (forall k :: 0 <= k < |prev| ==> prev[k] < |init| && init[prev[k]] == Some(Somes(init)[k]))
      && (forall a, b :: 0 <= a < b < |prev| ==> prev[a] < prev[b])
      && (forall t :: 0 <= t < |init| && init[t].Some? ==> t in prev)
    ensures idx == prev + [|xs| - 1]
    ensures |idx| == |Somes(xs)|
    ensures forall k :: 0 <= k < |idx| ==> idx[k] < |xs| && xs[idx[k]] == Some(Somes(xs)[k])
    ensures forall a, b :: 0 <= a < b < |idx| ==> idx[a] < idx[b]
    ensures forall t :: 0 <= t < |xs| && xs[t].Some? ==> t in idx
  {
    var n := |xs| - 1;
    var init := xs[..n];
    assert Somes(xs) == Somes(init) + [xs[n].value];
    idx := prev + [n];
    forall k | 0 <= k < |prev| ensures xs[idx[k]] == Some(Somes(xs)[k]) {
      assert idx[k] == prev[k] && init[prev[k]] == xs[prev[k]];
    }
    forall t | 0 <= t < n && xs[t].Some? ensures t in idx {
      assert init[t] == xs[t];
      assert t in prev;
    }
  }

  /** The dates come out in the order of the wallabies that signal them: one
      date per signalling wallaby and none for the others. */
  lemma SignalsFollowWallabies(bars: seq<AggBar>, potential: seq<Trap>, ws: seq<nat>)
    returns (idx: seq<nat>)
    requires forall k :: 0 <= k < |ws| ==> IsWallaby(bars, ws[k])
    ensures |idx| == |SignalsOver(bars, potential, ws)| <= |ws|
    ensures forall k :: 0 <= k < |idx| ==>
      idx[k] < |ws| && CandidateSignal(bars, potential, ws[idx[k]]) == Some(SignalsOver(bars, potential, ws)[k])
    ensures forall a, b :: 0 <= a < b < |idx| ==> idx[a] < idx[b]
    ensures forall t :: 0 <= t < |ws| && CandidateSignal(bars, potential, ws[t]).Some? ==> t in idx
  {
    idx := SomesFollow(Candidates(bars, potential, ws));
  }

  /** At most one date per wallaby bar of the scanned bars. */
  lemma ApexBullAppearBound(data: Option<seq<Quote>>, year: int -> nat, showWinRate: bool)
    ensures var bars := if data.None? then [] else SmaBars(data.value, year);
      var scanned := if showWinRate then bars else LastThirty(bars);
      |ApexBullAppear(data, year, showWinRate)| <= |WallabyPositions(scanned)|
  {
    var bars := if data.None? then [] else SmaBars(data.value, year);
    var scanned := if showWinRate then bars else LastThirty(bars);
    var ws := WallabyPositions(scanned);
    var _ := SignalsFollowWallabies(scanned, LowInflexionPoints(scanned), ws);
  }

  /** Without the win rate only the last 30 bars are scanned, but their SMAs
      are those of the full history: bar `i` of the slice carries the SMA at
      its position in the whole aggregated series `agg`, defined once that
      series reaches back `p` bars. `SmaBars` is this with periods
      `[20, 50, 200]`. */
  lemma LastThirtyKeepsFullHistorySma(agg: seq<AggBar>, periods: seq<nat>, i: nat, p: nat)
    requires forall k :: 0 <= k < |periods| ==> 1 <= periods[k]
    requires p in periods && i < |LastThirty(WithSmas(agg, periods))|
    ensures var scanned := LastThirty(WithSmas(agg, periods));
      var pos := |agg| - |scanned| + i;
      && pos < |agg|
      && p in scanned[i].smas && scanned[i].smas[p] == SmaAt(agg, p, pos)
      && (p - 1 <= |agg| - 30 ==> scanned[i].smas[p].Some?)
  {
    var full := WithSmas(agg, periods);
    var scanned := LastThirty(full);
    var pos := |agg| - |scanned| + i;
    assert scanned[i] == full[pos];
    WithSmasValues(agg, periods, pos, p);
    if p - 1 <= |agg| - 30 {
      assert |scanned| == 30 && p - 1 <= pos;
    }
  }
}
