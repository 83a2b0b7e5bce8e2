/** The step-by-step parts of the backtest: an SMA kept as a running window
    sum (the way a rolling mean is computed in one pass), the Signal column
    that starts at 0 and is overwritten by two masked assignments, and the
    whole pipeline assembling its columns one after another. Each is proved
    equal to the whole-column definition in `Backtest`. */
module Imperative {
  import opened Series
  import opened Backtest

  /** Index of the first close still inside the window after `i` closes. */
  function WindowStart(i: nat, w: nat): nat
  {
    if i < w then 0 else i - w
  }

  /** Moving the window past close `i` adds `close[i]` and, once the
      window is full, drops the close `w` rows earlier. */
  lemma WindowStep(close: seq<real>, w: nat, i: nat)
    requires w >= 1 && i < |close|
    ensures Sum(close[WindowStart(i + 1, w)..i + 1])
         == Sum(close[WindowStart(i, w)..i]) + close[i] - (if i >= w then close[i - w] else 0.0)
  {
    var lo := WindowStart(i, w);
    assert close[lo..i + 1][..i - lo] == close[lo..i];
    if i >= w {
      SumDropFirst(close[i - w..i + 1]);
      assert close[i - w..i + 1][1..] == close[i - w + 1..i + 1];
    }
  }

  /** The trailing rolling mean in one pass: add the entering close,
      drop the leaving one, divide once the window is full. */
  method RunningSma(close: seq<real>, w: nat) returns (sma: seq<Option<real>>)
    requires w >= 1
    ensures sma == Sma(close, w)
  {
    var acc := 0.0;
    sma := [];
    var i := 0;
    while i < |close|
      invariant 0 <= i <= |close|
      invariant |sma| == i
      invariant forall k :: 0 <= k < i ==> sma[k] == WindowMean(close, w, k)
      invariant acc == Sum(close[WindowStart(i, w)..i])
    {
      WindowStep(close, w, i);
      acc := acc + close[i];
      if i >= w {
        acc := acc - close[i - w];
      }
      var cell := if i + 1 < w then None else Some(acc / w as real);
      assert cell == WindowMean(close, w, i);
      sma := sma + [cell];
      i := i + 1;
    }
  }

  /** A Signal column of zeros, then 1 wherever the short average is above
      the long one, then -1 wherever it is below; the two masks never
      overlap, so the result is the three-way crossover of each row. */
  method AssignSignal(smaShort: seq<Option<real>>, smaLong: seq<Option<real>>) returns (signal: seq<int>)
    requires |smaShort| == |smaLong|
    ensures signal == SignalColumn(smaShort, smaLong)
  {
    var column := new int[|smaShort|](_ => 0);
    for i := 0 to column.Length
      invariant forall k :: 0 <= k < i ==> column[k] == (if Above(smaShort[k], smaLong[k]) then 1 else 0)
      invariant forall k :: i <= k < column.Length ==> column[k] == 0
    {
      if Above(smaShort[i], smaLong[i]) {
        column[i] := 1;
      }
    }
    for i := 0 to column.Length
      invariant forall k :: 0 <= k < i ==> column[k] == Crossover(smaShort[k], smaLong[k])
      invariant forall k :: i <= k < column.Length ==> column[k] == (if Above(smaShort[k], smaLong[k]) then 1 else 0)
    {
      if Below(smaShort[i], smaLong[i]) {
        column[i] := -1;
      }
    }
    signal := column[..];
  }

  /** `back_test_sma_strategy` without download, display and plotting:
      the frame gains its columns one by one, then the growth curves, the
      total return (which fails on an empty frame) and the event rows. */
  method BackTestSmaStrategy(close: seq<real>, shortWindow: nat, longWindow: nat) returns (r: Result<Report>)
    requires Positive(close) && shortWindow >= 1 && longWindow >= 1
    ensures r == BackTest(close, shortWindow, longWindow)
  {
    var smaShort := RunningSma(close, shortWindow);
    var smaLong := RunningSma(close, longWindow);
    var signal := AssignSignal(smaShort, smaLong);
    var position := Shift(signal);
    var market := PctChange(close);
    var strategy := StrategyReturns(position, market);
    var cumulativeStrategy := CumProd(Growth(strategy));
    var cumulativeMarket := CumProd(Growth(market));
    var total := TotalReturn(cumulativeStrategy);
    if total.Err? {
      return Err(total.error);
    }
    var buy := Events(position, 1);
    var sell := Events(position, -1);
    r := Ok(Report(Frame(close, smaShort, smaLong, signal, position, market, strategy),
                   cumulativeStrategy, cumulativeMarket, total.value, buy, sell));
  }
}
