/** The SMA-crossover backtest of `back_test_sma_strategy`, column by
    column, as whole-column functions over the closing-price series.
    Row `i` of every column belongs to row `i` of the input; a cell that
    pandas leaves as NaN is `None`. */
module Backtest {
  import opened Series

  /** Taking the last cumulative value of an empty frame fails. */
  datatype Error = EmptySeries

  datatype Result<+T> = Ok(value: T) | Err(error: Error)

  /** The per-row columns the frame `data` accumulates. */
  datatype Frame = Frame(
    close: seq<real>,
    smaShort: seq<Option<real>>,
    smaLong: seq<Option<real>>,
    signal: seq<int>,
    position: seq<int>,
    marketReturns: seq<Option<real>>,
    strategyReturns: seq<Option<real>>)

  /** Everything the backtest computes apart from the Sharpe ratio: the
      frame, both growth-of-1 curves, the total return (`None` when it is
      NaN) and the rows of the buy and sell markers. */
  datatype Report = Report(
    frame: Frame,
    cumulativeStrategy: seq<Option<real>>,
    cumulativeMarket: seq<Option<real>>,
    totalReturn: Option<real>,
    buySignals: seq<nat>,
    sellSignals: seq<nat>)

  predicate Positive(close: seq<real>)
  {
    forall i :: 0 <= i < |close| ==> close[i] > 0.0
  }

  /** Every column of the frame has one cell per input close. */
  predicate Aligned(f: Frame)
  {
    && |f.smaShort| == |f.close|
    && |f.smaLong| == |f.close|
    && |f.signal| == |f.close|
    && |f.position| == |f.close|
    && |f.marketReturns| == |f.close|
    && |f.strategyReturns| == |f.close|
  }

  // ---------------------------------------------------------------- SMA

  /** The trailing rolling mean at row `i`: undefined until the
      window of the `w` closes ending at `i` is full, then their mean. */
  function WindowMean(close: seq<real>, w: nat, i: nat): Option<real>
    requires w >= 1 && i < |close|
  {
    if i + 1 < w then None else Some(Sum(close[i + 1 - w .. i + 1]) / w as real)
  }

  function Sma(close: seq<real>, w: nat): (r: seq<Option<real>>)
    requires w >= 1
    ensures |r| == |close|
  {
    seq(|close|, i requires 0 <= i < |close| => WindowMean(close, w, i))
  }

  // ------------------------------------------------------------- Signal

  /** The short average is above the long one; any comparison with NaN is false. */
  predicate Above(short: Option<real>, long: Option<real>)
  {
    short.Some? && long.Some? && short.value > long.value
  }

  /** The short average is below the long one; any comparison with NaN is false. */
  predicate Below(short: Option<real>, long: Option<real>)
  {
    short.Some? && long.Some? && short.value < long.value
  }

  /** The three-way crossover signal of one row. */
  function Crossover(short: Option<real>, long: Option<real>): (r: int)
    ensures -1 <= r <= 1
    ensures r == 1 <==> Above(short, long)
    ensures r == -1 <==> Below(short, long)
    ensures r == 0 <==> !Above(short, long) && !Below(short, long)
  {
    match (short, long)
    case (Some(s), Some(l)) => if s > l then 1 else if s < l then -1 else 0
    case _ => 0
  }

  function SignalColumn(smaShort: seq<Option<real>>, smaLong: seq<Option<real>>): (r: seq<int>)
    requires |smaShort| == |smaLong|
    ensures |r| == |smaShort|
  {
    seq(|smaShort|, i requires 0 <= i < |smaShort| => Crossover(smaShort[i], smaLong[i]))
  }

  // ----------------------------------------------------------- Position

  /** The signal lagged by one row, with the missing first cell filled by 0. */
  function Shift(signal: seq<int>): (r: seq<int>)
    ensures |r| == |signal|
    ensures |r| > 0 ==> r[0] == 0
    ensures forall i :: 1 <= i < |r| ==> r[i] == signal[i - 1]
  {
    if |signal| == 0 then [] else [0] + signal[..|signal| - 1]
  }

  // ------------------------------------------------------------ Returns

  /** The percentage change of the closes: NaN in row 0, then the change relative to the
      previous close. */
  function PctChange(close: seq<real>): (r: seq<Option<real>>)
    requires Positive(close)
    ensures |r| == |close|
    ensures |r| > 0 ==> r[0].None?
    ensures forall i :: 1 <= i < |r| ==> r[i].Some?
  {
    seq(|close|, i requires 0 <= i < |close| =>
      if i == 0 then None else Some((close[i] - close[i - 1]) / close[i - 1]))
  }

  /** The position times the market return of one row; NaN stays NaN. */
  function Scale(position: int, market: Option<real>): Option<real>
  {
    if market.None? then None else Some(position as real * market.value)
  }

  /** The position times the market return, row by row. */
  function StrategyReturns(position: seq<int>, market: seq<Option<real>>): (r: seq<Option<real>>)
    requires |position| == |market|
    ensures |r| == |market|
  {
    seq(|market|, i requires 0 <= i < |market| =>
      Scale(position[i], market[i]))
  }

  // -------------------------------------------------------- Compounding

  /** One plus each return, row by row; NaN stays NaN. */
  function Growth(rets: seq<Option<real>>): (r: seq<Option<real>>)
    ensures |r| == |rets|
  {
    seq(|rets|, i requires 0 <= i < |rets| =>
      if rets[i].None? then None else Some(1.0 + rets[i].value))
  }

  /** Product of the defined cells; NaN cells are skipped, as `cumprod` does. */
  function DefinedProduct(s: seq<Option<real>>): real
  {
    if |s| == 0 then 1.0
    else DefinedProduct(s[..|s| - 1]) * (if s[|s| - 1].None? then 1.0 else s[|s| - 1].value)
  }

  /** The cumulative product: NaN where the cell is NaN, otherwise the product of every
      defined cell up to and including this one. */
  function CumProd(s: seq<Option<real>>): (r: seq<Option<real>>)
    ensures |r| == |s|
  {
    seq(|s|, i requires 0 <= i < |s| =>
      if s[i].None? then None else Some(DefinedProduct(s[..i + 1])))
  }

  /** The last cumulative value minus 1: an error on an empty series and
      NaN when the last cumulative value is NaN. */
  function TotalReturn(cumulative: seq<Option<real>>): (r: Result<Option<real>>)
    ensures r.Err? <==> |cumulative| == 0
    ensures r.Ok? ==> (r.value.Some? <==> cumulative[|cumulative| - 1].Some?)
    ensures r.Ok? && r.value.Some? ==> r.value.value + 1.0 == cumulative[|cumulative| - 1].value
  {
    if |cumulative| == 0 then Err(EmptySeries)
    else match cumulative[|cumulative| - 1]
         case None => Ok(None)
         case Some(v) => Ok(Some(v - 1.0))
  }

  // ------------------------------------------------------------- Events

  /** Row `i` holds the `target` position and the row before does not;
      in row 0 the lagged position is NaN, which differs from any target. */
  predicate IsEvent(position: seq<int>, target: int, i: nat)
    requires i < |position|
  {
    position[i] == target && (i == 0 || position[i - 1] != target)
  }

  /** The rows below `n` that the boolean mask of `IsEvent` selects, in order. */
  function EventsUpTo(position: seq<int>, target: int, n: nat): (r: seq<nat>)
    requires n <= |position|
    ensures forall j :: 0 <= j < |r| ==> r[j] < n && IsEvent(position, target, r[j])
    ensures forall k :: 0 <= k < n && IsEvent(position, target, k) ==> k in r
    ensures forall j, l :: 0 <= j < l < |r| ==> r[j] < r[l]
  {
    if n == 0 then []
    else EventsUpTo(position, target, n - 1) + (if IsEvent(position, target, n - 1) then [n - 1] else [])
  }

  function Events(position: seq<int>, target: int): seq<nat>
  {
    EventsUpTo(position, target, |position|)
  }

  // ----------------------------------------------------------- Pipeline

  /** The computation of `back_test_sma_strategy` on a close series. */
  function BackTest(close: seq<real>, shortWindow: nat, longWindow: nat): (r: Result<Report>)
    requires Positive(close) && shortWindow >= 1 && longWindow >= 1
    ensures r.Err? <==> |close| == 0
    ensures r.Ok? ==> r.value.frame.close == close && Aligned(r.value.frame)
    ensures r.Ok? ==> |r.value.cumulativeStrategy| == |close| && |r.value.cumulativeMarket| == |close|
  {
    var smaShort := Sma(close, shortWindow);
    var smaLong := Sma(close, longWindow);
    var signal := SignalColumn(smaShort, smaLong);
    var position := Shift(signal);
    var market := PctChange(close);
    var strategy := StrategyReturns(position, market);
    var cumulativeStrategy := CumProd(Growth(strategy));
    var cumulativeMarket := CumProd(Growth(market));
    match TotalReturn(cumulativeStrategy)
    case Err(e) => Err(e)
    case Ok(total) =>
      Ok(Report(Frame(close, smaShort, smaLong, signal, position, market, strategy),
                cumulativeStrategy, cumulativeMarket, total,
                Events(position, 1), Events(position, -1)))
  }
}
